/** Every run of the command bus and its cards: what each step keeps.

    A run is any interleaving of the atomic steps: a POST, a child line, a
    resumed handler, the two timers, the child's exit, and the events that
    create or remove cards. The history part of a state is bookkeeping for the
    statements only; no step reads it. */
module BusProtocol {
  import opened Tables
  import opened Cards
  import opened Commands
  import StableJson

  datatype Event =
    | Post(cmd: Command, alive: bool, accepted: bool)
    | ResultLine(rid: ResultId, result: CoreResult)
    | Resumes(id: nat)
    | TimeoutFires(id: nat)
    | UnknownFires(id: nat)
    | ChildExits
    | QuestionAsked(qid: string, text: string)
    | ApprovalRequested(aid: string, agent: string, tool: Print, args: Content)
    | ApprovalGone(aid: string)
    | SessionStarts
    | SessionEnds

  /** `born[k]`: how often key k became pending. `answers[i]`: the key command i
      answers and the incarnation it saw. `sent`, `replied`: ids in order. */
  datatype History = History(born: map<Key, nat>, answers: map<nat, (Key, nat)>, sent: seq<nat>, replied: seq<nat>)

  datatype Sys = Sys(bus: Bus, cards: Cards, h: History, maxUnknown: nat)

  function Start(maxUnknown: nat): Sys {
    Sys(FRESH_BUS, NO_CARDS, History(map[], map[], [], []), maxUnknown)
  }

  function Born(h: History, k: Key): nat {
    if k in h.born then h.born[k] else 0
  }

  /** The history after the cards of `s` became `c'` by an event that may create key `k`. */
  function Creates(s: Sys, c': Cards, k: Key): Sys {
    s.(cards := c',
       h := if Pending(c', k) && !Pending(s.cards, k) then s.h.(born := s.h.born[k := Born(s.h, k) + 1]) else s.h)
  }

  function Step(s: Sys, e: Event): Sys
    requires TablesValid(s.bus)
  {
    match e
    case Post(cmd, alive, accepted) =>
      var (b', c') := Send(s.bus, s.cards, cmd, alive, accepted);
      var out := Judge(s.bus, s.cards, cmd, alive, accepted);
      var h' := if !out.Waiting? then s.h
                else if cmd.key.None? then s.h.(sent := s.h.sent + [out.id])
                else s.h.(sent := s.h.sent + [out.id],
                          answers := s.h.answers[out.id := (cmd.key.value, Born(s.h, cmd.key.value))]);
      s.(bus := b', cards := c', h := h')
    case ResultLine(rid, r) =>
      var (b', c', _) := OnResult(s.bus, s.cards, rid, r);
      s.(bus := b', cards := c')
    case Resumes(id) =>
      if id !in s.bus.answered.at then s
      else
        var (b', c') := Resume(s.bus, s.cards, id);
        s.(bus := b', cards := c', h := s.h.(replied := s.h.replied + [id]))
    case TimeoutFires(id) =>
      if id !in s.bus.inflight.at then s
      else s.(bus := TimedOut(s.bus, id, s.maxUnknown), h := s.h.(replied := s.h.replied + [id]))
    case UnknownFires(id) =>
      if id !in s.bus.unknown.at then s
      else
        var (b', c') := UnknownExpired(s.bus, s.cards, id, s.maxUnknown);
        s.(bus := b', cards := c')
    case ChildExits =>
      var (b', c') := ChildExit(s.bus, s.cards);
      s.(bus := b', cards := GatewayExited(c'), h := s.h.(replied := s.h.replied + s.bus.inflight.order))
    case QuestionAsked(id, text) => Creates(s, Ask(s.cards, id, text), Q(id))
    case ApprovalRequested(id, agent, tool, args) => Creates(s, Request(s.cards, id, agent, tool, args), A(id))
    case ApprovalGone(id) => s.(cards := Gone(s.cards, id))
    case SessionStarts => s.(cards := SessionStarted(s.cards))
    case SessionEnds => s.(cards := SessionEnded(s.cards))
  }

  // ---- The invariant -----------------------------------------------------------------------

  /** The outstanding commands and their keys: waiting for a result, for their
      handler to resume, or timed out but not given up. */
  function Outstanding(b: Bus): map<nat, Option<Key>> {
    b.unknown.at + b.inflight.at + AnsweredKeys(b.answered)
  }

  function AnsweredKeys(answered: Table<nat, Answer>): map<nat, Option<Key>> {
    map id | id in answered.at :: answered.at[id].key
  }

  /** ... and those given up but still recognised. */
  function Known(b: Bus): map<nat, Option<Key>> {
    b.expired.at + Outstanding(b)
  }

  ghost predicate IdsDisjoint(b: Bus) {
    && b.inflight.at.Keys !! b.answered.at.Keys
    && b.inflight.at.Keys !! b.unknown.at.Keys
    && b.inflight.at.Keys !! b.expired.at.Keys
    && b.answered.at.Keys !! b.unknown.at.Keys
    && b.answered.at.Keys !! b.expired.at.Keys
    && b.unknown.at.Keys !! b.expired.at.Keys
  }

  ghost predicate IdsTaken(b: Bus) {
    forall id :: id in Known(b) ==> id < b.next
  }

  /** Each owner is a known command, recorded with that very key. */
  ghost predicate OwnersTracked(b: Bus) {
    forall k :: k in b.owner ==> b.owner[k] in Known(b) && Known(b)[b.owner[k]] == Some(k)
  }

  ghost predicate Tracked(b: Bus) {
    && TablesValid(b)
    && IdsDisjoint(b) && IdsTaken(b)
    && OwnersTracked(b)
  }

  ghost predicate BusInv(b: Bus, maxUnknown: nat) {
    Tracked(b) && |b.expired.order| <= maxUnknown
  }

  /** A card being answered is owned by an outstanding command for its own incarnation. */
  ghost predicate NoCardStuck(o: map<nat, Option<Key>>, owner: map<Key, nat>, c: Cards, h: History) {
    forall k :: Resolving(c, k) ==>
      && k in owner && owner[k] in o && o[owner[k]] == Some(k)
      && owner[k] in h.answers && h.answers[owner[k]] == (k, Born(h, k))
  }

  ghost predicate AnswersRecorded(o: map<nat, Option<Key>>, h: History) {
    forall id :: id in o && o[id].Some? ==>
      && id in h.answers && h.answers[id].0 == o[id].value
      && h.answers[id].1 <= Born(h, o[id].value)
  }

  predicate Keyed(o: map<nat, Option<Key>>, h: History, id: nat) {
    id in o && o[id].Some? && id in h.answers
  }

  /** No two outstanding commands answer the same incarnation of a key. */
  ghost predicate NoDoubleAnswer(o: map<nat, Option<Key>>, h: History) {
    forall i, j :: Keyed(o, h, i) && Keyed(o, h, j) && h.answers[i] == h.answers[j] ==> i == j
  }

  /** Command id answers the incarnation of its key that is pending now. */
  predicate Current(o: map<nat, Option<Key>>, c: Cards, h: History, id: nat) {
    Keyed(o, h, id) && Pending(c, o[id].value) && h.answers[id].1 == Born(h, o[id].value)
  }

  /** A pending card with an outstanding command for its incarnation is owned by it and being answered. */
  ghost predicate OutstandingIsShown(o: map<nat, Option<Key>>, owner: map<Key, nat>, c: Cards, h: History) {
    forall id :: Current(o, c, h, id) ==>
      Resolving(c, o[id].value) && o[id].value in owner && owner[o[id].value] == id
  }

  /** `firm`: there is room for tombstones, and no card is stuck. */
  ghost predicate CardInv(firm: bool, o: map<nat, Option<Key>>, owner: map<Key, nat>, c: Cards, h: History) {
    && (firm ==> NoCardStuck(o, owner, c, h))
    && AnswersRecorded(o, h)
    && NoDoubleAnswer(o, h)
    && OutstandingIsShown(o, owner, c, h)
    && Printed(c)
  }

  /** Every sent command waits for its reply or has had exactly one. */
  ghost predicate OneReply(b: Bus, h: History) {
    && Distinct(h.sent) && Distinct(h.replied)
    && (forall id :: id in h.sent ==> id < b.next)
    && (forall id :: id in h.sent <==> id in b.inflight.at || id in b.answered.at || id in h.replied)
    && (forall id :: id in h.replied ==> id !in b.inflight.at && id !in b.answered.at)
  }

  ghost predicate Inv(s: Sys) {
    && BusInv(s.bus, s.maxUnknown)
    && CardInv(s.maxUnknown >= 1, Outstanding(s.bus), s.bus.owner, s.cards, s.h)
    && OneReply(s.bus, s.h)
  }

  // ---- Cards against outstanding commands -------------------------------------------------------

  lemma SetResolvingOnly(c: Cards, k: Key, resolving: bool)
    ensures var c' := SetResolving(c, k, resolving);
            && (forall x :: Pending(c', x) == Pending(c, x))
            && (forall x :: Resolving(c', x) == if x == k && Pending(c, k) then resolving else Resolving(c, x))
            && (Printed(c) ==> Printed(c'))
  {}

  lemma ReleaseOnly(c: Cards, k: Key)
    ensures var c' := Release(c, k);
            && (forall x :: Pending(c', x) == (Pending(c, x) && x != k))
            && (forall x :: Resolving(c', x) == (Resolving(c, x) && x != k))
            && (Printed(c) ==> Printed(c'))
  {}

  /** What is outstanding only shrinks: answers stay recorded and single. */
  lemma FewerAnswers(o: map<nat, Option<Key>>, o': map<nat, Option<Key>>, h: History)
    requires AnswersRecorded(o, h) && NoDoubleAnswer(o, h)
    requires forall id :: id in o' ==> id in o && o'[id] == o[id]
    ensures AnswersRecorded(o', h) && NoDoubleAnswer(o', h)
  {
    forall id | Keyed(o', h, id) ensures Keyed(o, h, id) {}
  }

  /** Key k stops being answered, because the command that owned it has left the outstanding ones. */
  lemma FreedKeeps(firm: bool, o: map<nat, Option<Key>>, o': map<nat, Option<Key>>, owner: map<Key, nat>,
                   owner': map<Key, nat>, c: Cards, c': Cards, h: History, k: Key)
    requires CardInv(firm, o, owner, c, h) && Printed(c')
    requires forall id :: id in o' ==> id in o && o'[id] == o[id]
    requires forall id :: id in o && id !in o' ==> o[id] == Some(k)
    requires forall x :: x != k && x in owner && owner[x] in o' ==> x in owner' && owner'[x] == owner[x]
    requires forall x :: x != k ==> Pending(c', x) == Pending(c, x) && Resolving(c', x) == Resolving(c, x)
    requires !Resolving(c', k) && (Pending(c', k) ==> Pending(c, k))
    requires k in owner && owner[k] !in o'
    ensures CardInv(firm, o', owner', c', h)
  {
    FewerAnswers(o, o', h);
    forall id | Current(o', c', h, id)
      ensures Resolving(c', o'[id].value) && o'[id].value in owner' && owner'[o'[id].value] == id
    {
      assert Current(o, c, h, id);
    }
  }

  /** A command leaves the outstanding ones without touching any card. */
  lemma LeaveKeeps(firm: bool, o: map<nat, Option<Key>>, o': map<nat, Option<Key>>, owner: map<Key, nat>,
                   owner': map<Key, nat>, c: Cards, h: History)
    requires CardInv(firm, o, owner, c, h)
    requires forall id :: id in o' ==> id in o && o'[id] == o[id]
    requires forall x :: x in owner && owner[x] in o' ==> x in owner' && owner'[x] == owner[x]
    requires firm ==> forall x :: x in owner && owner[x] in o && owner[x] !in o' ==> !Resolving(c, x)
    ensures CardInv(firm, o', owner', c, h)
  {
    FewerAnswers(o, o', h);
    forall id | Current(o', c, h, id) ensures o'[id].value in owner' && owner'[o'[id].value] == id {
      assert Current(o, c, h, id);
    }
  }

  /** A verdict for an outstanding command, which is then no longer outstanding. */
  lemma SettleKeeps(firm: bool, o: map<nat, Option<Key>>, b: Bus, c: Cards, h: History, id: nat, r: CoreResult)
    requires CardInv(firm, o, b.owner, c, h) && id in o
    ensures var (b', c', _) := SettleKey(b, c, o[id], id, r);
            CardInv(firm, o - {id}, b'.owner, c', h)
  {
    var (b', c', mine) := SettleKey(b, c, o[id], id, r);
    if Owns(b, o[id], id) {
      var k := o[id].value;
      SetResolvingOnly(c, k, false);
      ReleaseOnly(c, k);
      FreedKeeps(firm, o, o - {id}, b.owner, b'.owner, c, c', h, k);
    } else {
      LeaveKeeps(firm, o, o - {id}, b.owner, b'.owner, c, h);
    }
  }

  /** A verdict for a command that is not outstanding: it finds no card being answered. */
  lemma LateSettleKeeps(firm: bool, o: map<nat, Option<Key>>, b: Bus, c: Cards, h: History, key: Option<Key>, id: nat,
                        r: CoreResult)
    requires CardInv(firm, o, b.owner, c, h) && id !in o
    ensures var (b', c', _) := SettleKey(b, c, key, id, r);
            CardInv(firm, o, b'.owner, c', h)
  {
    var (b', c', mine) := SettleKey(b, c, key, id, r);
    if Owns(b, key, id) {
      var k := key.value;
      SetResolvingOnly(c, k, false);
      ReleaseOnly(c, k);
      FreedKeeps(firm, o, o, b.owner, b'.owner, c, c', h, k);
    }
  }

  /** Giving up an outstanding command; owners of commands that are not outstanding may go too. */
  lemma GiveUpKeeps(firm: bool, o: map<nat, Option<Key>>, b: Bus, b': Bus, c: Cards, h: History, id: nat)
    requires CardInv(firm, o, b.owner, c, h) && id in o
    requires forall k :: k in b.owner && b.owner[k] in o - {id} ==> k in b'.owner && b'.owner[k] == b.owner[k]
    requires forall k :: k in b'.owner && b'.owner[k] == id ==> k in b.owner && b.owner[k] == id
    requires firm ==> forall k :: k in b.owner && b.owner[k] == id ==> k in b'.owner && b'.owner[k] == id
    ensures CardInv(firm, o - {id}, b'.owner, if Owns(b', o[id], id) then SetResolving(c, o[id].value, false) else c, h)
  {
    if Owns(b', o[id], id) {
      var k := o[id].value;
      SetResolvingOnly(c, k, false);
      FreedKeeps(firm, o, o - {id}, b.owner, b'.owner, c, SetResolving(c, k, false), h, k);
    } else {
      LeaveKeeps(firm, o, o - {id}, b.owner, b'.owner, c, h);
    }
  }

  lemma SendKeeps(firm: bool, o: map<nat, Option<Key>>, owner: map<Key, nat>, c: Cards, h: History, id: nat, k: Key)
    requires CardInv(firm, o, owner, c, h) && id !in o && Pending(c, k) && !Resolving(c, k)
    ensures CardInv(firm, o[id := Some(k)], owner[k := id], SetResolving(c, k, true),
                    h.(answers := h.answers[id := (k, Born(h, k))]))
  {
    hide SetResolving;
    SetResolvingOnly(c, k, true);
    var o', h', c' := o[id := Some(k)], h.(answers := h.answers[id := (k, Born(h, k))]), SetResolving(c, k, true);
    NewAnswerIsSingle(o, owner, c, h, o', h', id, k);
    NewAnswerIsShown(o, owner, c, h, o', c', h', id, k);
    if firm { NewAnswerOwns(o, owner, c, h, o', c', h', id, k); }
  }

  lemma NewAnswerIsSingle(o: map<nat, Option<Key>>, owner: map<Key, nat>, c: Cards, h: History,
                          o': map<nat, Option<Key>>, h': History, id: nat, k: Key)
    requires AnswersRecorded(o, h) && NoDoubleAnswer(o, h) && OutstandingIsShown(o, owner, c, h)
    requires id !in o && Pending(c, k) && !Resolving(c, k)
    requires o' == o[id := Some(k)] && h' == h.(answers := h.answers[id := (k, Born(h, k))])
    ensures AnswersRecorded(o', h') && NoDoubleAnswer(o', h')
  {
    assert forall x :: Born(h', x) == Born(h, x);
    forall i | Keyed(o', h', i) && i != id ensures Keyed(o, h, i) && h'.answers[i] != h'.answers[id] {
      assert Keyed(o, h, i);
      assert Current(o, c, h, i) ==> Resolving(c, o[i].value);
    }
  }

  lemma NewAnswerIsShown(o: map<nat, Option<Key>>, owner: map<Key, nat>, c: Cards, h: History,
                         o': map<nat, Option<Key>>, c': Cards, h': History, id: nat, k: Key)
    requires OutstandingIsShown(o, owner, c, h) && id !in o && Pending(c, k) && !Resolving(c, k)
    requires o' == o[id := Some(k)] && h' == h.(answers := h.answers[id := (k, Born(h, k))])
    requires forall x :: Pending(c', x) == Pending(c, x) && Resolving(c', x) == (x == k || Resolving(c, x))
    ensures OutstandingIsShown(o', owner[k := id], c', h')
  {
    assert forall x :: Born(h', x) == Born(h, x);
    forall i | Current(o', c', h', i) && i != id ensures o'[i].value != k && Current(o, c, h, i) {
      assert Current(o, c, h, i);
    }
  }

  lemma NewAnswerOwns(o: map<nat, Option<Key>>, owner: map<Key, nat>, c: Cards, h: History,
                      o': map<nat, Option<Key>>, c': Cards, h': History, id: nat, k: Key)
    requires NoCardStuck(o, owner, c, h) && id !in o
    requires o' == o[id := Some(k)] && h' == h.(answers := h.answers[id := (k, Born(h, k))])
    requires forall x :: Pending(c', x) == Pending(c, x) && Resolving(c', x) == (x == k || Resolving(c, x))
    ensures NoCardStuck(o', owner[k := id], c', h')
  {
    assert forall x :: Born(h', x) == Born(h, x);
    forall x | Resolving(c', x) && x != k ensures owner[x] != id && owner[x] in o { assert Resolving(c, x); }
  }

  /** A new incarnation starts with nobody answering it. */
  lemma BirthKeeps(firm: bool, o: map<nat, Option<Key>>, owner: map<Key, nat>, c: Cards, c': Cards, h: History,
                   h': History,
                   k: Key)
    requires CardInv(firm, o, owner, c, h) && Printed(c')
    requires Pending(c', k) && Resolving(c', k) == Resolving(c, k)
    requires forall x :: x != k ==> Pending(c', x) == Pending(c, x) && Resolving(c', x) == Resolving(c, x)
    requires h' == if Pending(c, k) then h else h.(born := h.born[k := Born(h, k) + 1])
    ensures CardInv(firm, o, owner, c', h')
  {
    assert forall x :: x != k ==> Born(h', x) == Born(h, x);
    BornIsNotStuck(firm, o, owner, c, c', h, h', k);
    forall i | Keyed(o, h', i) ensures Keyed(o, h, i) {}
    forall i | Current(o, c', h', i) ensures Current(o, c, h, i) { assert Keyed(o, h, i); }
  }

  lemma BornIsNotStuck(firm: bool, o: map<nat, Option<Key>>, owner: map<Key, nat>, c: Cards, c': Cards, h: History,
                       h': History, k: Key)
    requires firm ==> NoCardStuck(o, owner, c, h)
    requires forall x :: Resolving(c', x) == Resolving(c, x)
    requires h'.answers == h.answers && forall x :: Pending(c, x) || x != k ==> Born(h', x) == Born(h, x)
    ensures firm ==> NoCardStuck(o, owner, c', h')
  {
    assert Resolving(c, k) ==> Pending(c, k);
  }

  lemma CardsLeaveKeeps(firm: bool, o: map<nat, Option<Key>>, owner: map<Key, nat>, c: Cards, c': Cards, h: History)
    requires CardInv(firm, o, owner, c, h) && Printed(c')
    requires forall x :: Pending(c', x) ==> Pending(c, x) && Resolving(c', x) == Resolving(c, x)
    requires forall x :: Resolving(c', x) ==> Pending(c', x)
    ensures CardInv(firm, o, owner, c', h)
  {
    forall i | Current(o, c', h, i) ensures Current(o, c, h, i) {}
  }

  // ---- The tables -------------------------------------------------------------------------------

  lemma KnownGrows(b: Bus, id: nat, key: Option<Key>)
    requires id !in Outstanding(b)
    ensures Known(b.(expired := b.expired.Put(id, key))) == Known(b)[id := key]
  {}

  lemma KnownShrinks(b: Bus, id: nat)
    requires id !in Outstanding(b)
    ensures Known(b.(expired := b.expired.Remove(id))) == Known(b) - {id}
  {}

  lemma GrowKeeps(b: Bus, id: nat, key: Option<Key>)
    requires TablesValid(b) && IdsDisjoint(b) && IdsTaken(b)
    requires id !in Known(b) && id < b.next
    requires forall k :: k in b.owner ==>
      if b.owner[k] == id then key == Some(k) else b.owner[k] in Known(b) && Known(b)[b.owner[k]] == Some(k)
    ensures Tracked(b.(expired := b.expired.Put(id, key)))
  {
    var g := b.(expired := b.expired.Put(id, key));
    b.expired.PutValid(id, key);
    KnownGrows(b, id, key);
    assert IdsDisjoint(g) by { assert g.expired.at.Keys == b.expired.at.Keys + {id}; }
  }

  lemma TrimKeeps(g: Bus, oldest: nat)
    requires Tracked(g) && oldest in g.expired.at
    ensures var t := g.(expired := g.expired.Remove(oldest));
            var t' := if Owns(g, g.expired.at[oldest], oldest) then WithoutOwner(t, g.expired.at[oldest].value) else t;
            && Tracked(t')
            && (forall k :: k in g.owner && g.owner[k] != oldest ==> k in t'.owner && t'.owner[k] == g.owner[k])
  {
    var t := g.(expired := g.expired.Remove(oldest));
    g.expired.RemoveValid(oldest);
    assert oldest !in Outstanding(g);
    KnownShrinks(g, oldest);
    assert Known(g)[oldest] == g.expired.at[oldest];
    assert IdsDisjoint(t) by { assert t.expired.at.Keys == g.expired.at.Keys - {oldest}; }
  }

  /** Burying a command that has just left the other tables: at most the oldest tombstone goes,
      and with it the ownership it held. */
  lemma TombstoneKeeps(b: Bus, id: nat, key: Option<Key>, maxUnknown: nat)
    requires TablesValid(b) && IdsDisjoint(b) && IdsTaken(b) && |b.expired.order| <= maxUnknown
    requires id !in Known(b) && id < b.next
    requires forall k :: k in b.owner ==>
      if b.owner[k] == id then key == Some(k) else b.owner[k] in Known(b) && Known(b)[b.owner[k]] == Some(k)
    ensures var b' := Tombstone(b, id, key, maxUnknown);
            && BusInv(b', maxUnknown)
            && b'.next == b.next && b'.inflight == b.inflight && b'.answered == b.answered && b'.unknown == b.unknown
            && (forall k :: k in b.owner && b.owner[k] in Outstanding(b) ==> k in b'.owner && b'.owner[k] == b.owner[k])
            && (maxUnknown >= 1 ==> forall k :: k in b.owner && b.owner[k] == id ==> k in b'.owner && b'.owner[k] == id)
  {
    var g := b.(expired := b.expired.Put(id, key));
    b.expired.PutValid(id, key);
    GrowKeeps(b, id, key);
    if |g.expired.order| > maxUnknown {
      var oldest := g.expired.order[0];
      assert oldest in g.expired.order;
      TrimKeeps(g, oldest);
      g.expired.RemoveValid(oldest);
      assert oldest !in Outstanding(b);
      assert b.expired.order != [] ==> oldest == b.expired.order[0] && oldest in b.expired.at;
    }
  }

  lemma TombstoneOnlyLoses(b: Bus, id: nat, key: Option<Key>, maxUnknown: nat)
    requires b.expired.Valid()
    ensures var b' := Tombstone(b, id, key, maxUnknown);
            forall k :: k in b'.owner ==> k in b.owner && b'.owner[k] == b.owner[k]
  {}

  // ---- Each kind of step keeps the invariant ------------------------------------------------------

  lemma DropFirst(u: map<nat, Option<Key>>, i: map<nat, Option<Key>>, a: map<nat, Option<Key>>, id: nat)
    requires id !in i && id !in a
    ensures (u - {id}) + i + a == (u + i + a) - {id}
  {}

  lemma DropSecond(u: map<nat, Option<Key>>, i: map<nat, Option<Key>>, a: map<nat, Option<Key>>, id: nat)
    requires id !in u && id !in a
    ensures u + (i - {id}) + a == (u + i + a) - {id}
  {}

  lemma DropThird(u: map<nat, Option<Key>>, i: map<nat, Option<Key>>, a: map<nat, Option<Key>>, id: nat)
    requires id !in u && id !in i
    ensures u + i + (a - {id}) == (u + i + a) - {id}
  {}

  lemma DropFromRest(e: map<nat, Option<Key>>, o: map<nat, Option<Key>>, id: nat)
    requires id !in e
    ensures e + (o - {id}) == (e + o) - {id}
  {}

  lemma AnsweredDrop(answered: Table<nat, Answer>, id: nat)
    ensures AnsweredKeys(answered.Remove(id)) == AnsweredKeys(answered) - {id}
  {}

  /** Taking a command out of its table takes it out of the known commands, and nothing else. */
  lemma TakenOut(b: Bus, b': Bus, id: nat)
    requires IdsDisjoint(b)
    requires
      || (id in b.answered.at && b' == b.(answered := b.answered.Remove(id)))
      || (id in b.unknown.at && b' == b.(unknown := b.unknown.Remove(id)))
      || (id in b.inflight.at && b' == b.(inflight := b.inflight.Remove(id)))
    ensures Outstanding(b') == Outstanding(b) - {id}
    ensures Known(b') == Known(b) - {id}
    ensures id in Outstanding(b) && Outstanding(b)[id] == Known(b)[id]
    ensures Known(b)[id] == if id in b.answered.at then b.answered.at[id].key
                            else if id in b.unknown.at then b.unknown.at[id]
                            else b.inflight.at[id]
  {
    var u, i, a := b.unknown.at, b.inflight.at, AnsweredKeys(b.answered);
    if id in b.answered.at {
      AnsweredDrop(b.answered, id);
      DropThird(u, i, a, id);
    } else if id in b.unknown.at {
      DropFirst(u, i, a, id);
    } else {
      DropSecond(u, i, a, id);
    }
    DropFromRest(b.expired.at, Outstanding(b), id);
  }

  /** ... so every other owner is still known. */
  ghost predicate OwnersKnownBut(b: Bus, id: nat, key: Option<Key>) {
    forall k :: k in b.owner ==>
      if b.owner[k] == id then key == Some(k) else b.owner[k] in Known(b) && Known(b)[b.owner[k]] == Some(k)
  }

  lemma PostKeeps(s: Sys, cmd: Command, alive: bool, accepted: bool)
    requires Inv(s)
    ensures Inv(Step(s, Post(cmd, alive, accepted)))
  {
    var t := Step(s, Post(cmd, alive, accepted));
    if Judge(s.bus, s.cards, cmd, alive, accepted).Waiting? {
      SentKeeps(s.bus, t.bus, s.bus.next, cmd.key, s.maxUnknown);
      SentReplies(s.bus, s.h, t.bus, t.h, s.bus.next, cmd.key);
      if cmd.key.Some? {
        KeyedPostKeeps(s, t, cmd.key.value);
      } else {
        KeylessKeeps(s.maxUnknown >= 1, Outstanding(s.bus), s.bus.owner, s.cards, s.h, t.h, s.bus.next);
      }
    } else {
      SkipKeeps(s.bus, t.bus, s.h, s.maxUnknown);
    }
  }

  lemma KeyedPostKeeps(s: Sys, t: Sys, k: Key)
    requires CardInv(s.maxUnknown >= 1, Outstanding(s.bus), s.bus.owner, s.cards, s.h)
    requires s.bus.next !in Outstanding(s.bus) && Pending(s.cards, k) && !Resolving(s.cards, k)
    requires Outstanding(t.bus) == Outstanding(s.bus)[s.bus.next := Some(k)]
             && t.bus.owner == s.bus.owner[k := s.bus.next]
    requires t.cards == SetResolving(s.cards, k, true)
    requires t.h.born == s.h.born && t.h.answers == s.h.answers[s.bus.next := (k, Born(s.h, k))]
    ensures CardInv(s.maxUnknown >= 1, Outstanding(t.bus), t.bus.owner, t.cards, t.h)
  {
    var id := s.bus.next;
    SendKeeps(s.maxUnknown >= 1, Outstanding(s.bus), s.bus.owner, s.cards, s.h, id, k);
    RepliesAside(s.maxUnknown >= 1, Outstanding(t.bus), t.bus.owner, t.cards,
                 s.h.(answers := s.h.answers[id := (k, Born(s.h, k))]), t.h);
  }

  /** A refused command at most skips a number. */
  lemma SkipKeeps(b: Bus, b': Bus, h: History, maxUnknown: nat)
    requires BusInv(b, maxUnknown) && OneReply(b, h)
    requires b' == b.(next := b'.next) && b.next <= b'.next
    ensures BusInv(b', maxUnknown) && OneReply(b', h) && Outstanding(b') == Outstanding(b)
  {
    assert Known(b') == Known(b);
  }

  lemma SentReplies(b: Bus, h: History, b': Bus, h': History, id: nat, key: Option<Key>)
    requires OneReply(b, h) && id == b.next
    requires b'.inflight == b.inflight.Put(id, key) && b'.answered == b.answered && b'.next == id + 1
    requires h'.sent == h.sent + [id] && h'.replied == h.replied
    requires IdsTaken(b)
    ensures OneReply(b', h')
  {
    assert id !in Known(b);
    assert id !in b.answered.at && id !in b.inflight.at && id !in h.sent;
  }

  lemma KeylessKeeps(firm: bool, o: map<nat, Option<Key>>, owner: map<Key, nat>, c: Cards, h: History, h': History,
                     id: nat)
    requires CardInv(firm, o, owner, c, h) && id !in o
    requires h'.answers == h.answers && h'.born == h.born
    ensures CardInv(firm, o[id := None], owner, c, h')
  {
    var o' := o[id := None];
    forall i | Keyed(o', h', i) ensures Keyed(o, h, i) {}
    forall i | Current(o', c, h', i) ensures Current(o, c, h, i) {}
  }

  lemma SentKeeps(b: Bus, b': Bus, id: nat, key: Option<Key>, maxUnknown: nat)
    requires BusInv(b, maxUnknown) && id == b.next
    requires b' == b.(next := id + 1, inflight := b.inflight.Put(id, key),
                      owner := if key.Some? then b.owner[key.value := id] else b.owner)
    ensures BusInv(b', maxUnknown) && id !in Outstanding(b) && Outstanding(b') == Outstanding(b)[id := key]
  {
    hide Outstanding, Known, TablesValid, IdsDisjoint, OwnersTracked;
    SentFresh(b, id);
    SentKnown(b, b', id, key);
    SentTables(b, b', id, key);
    SentOwners(b, b', id, key);
  }

  lemma SentFresh(b: Bus, id: nat)
    requires IdsTaken(b) && id == b.next
    ensures id !in Known(b)
  {
    hide Known;
  }

  lemma SentTables(b: Bus, b': Bus, id: nat, key: Option<Key>)
    requires TablesValid(b) && IdsDisjoint(b) && b'.inflight == b.inflight.Put(id, key)
    requires id !in b.inflight.at && id !in b.answered.at && id !in b.unknown.at && id !in b.expired.at
    requires b'.answered == b.answered && b'.unknown == b.unknown && b'.expired == b.expired
    ensures TablesValid(b') && IdsDisjoint(b')
  {
    b.inflight.PutValid(id, key);
    assert b'.inflight.at.Keys == b.inflight.at.Keys + {id};
  }

  lemma SentOwners(b: Bus, b': Bus, id: nat, key: Option<Key>)
    requires IdsTaken(b) && OwnersTracked(b) && id == b.next && id !in Known(b) && Known(b') == Known(b)[id := key]
    requires b'.next == id + 1 && b'.owner == if key.Some? then b.owner[key.value := id] else b.owner
    ensures IdsTaken(b') && OwnersTracked(b')
  {
    hide Known;
  }

  lemma SentKnown(b: Bus, b': Bus, id: nat, key: Option<Key>)
    requires id !in Known(b) && b'.inflight == b.inflight.Put(id, key)
    requires b'.answered == b.answered && b'.unknown == b.unknown && b'.expired == b.expired
    ensures Outstanding(b') == Outstanding(b)[id := key] && Known(b') == Known(b)[id := key]
    ensures id !in b.inflight.at && id !in b.answered.at && id !in b.unknown.at && id !in b.expired.at
    ensures id !in Outstanding(b)
  {
    AddSecond(b.unknown.at, b.inflight.at, AnsweredKeys(b.answered), id, key);
    AddToRest(b.expired.at, Outstanding(b), id, key);
  }

  lemma AddSecond(u: map<nat, Option<Key>>, i: map<nat, Option<Key>>, a: map<nat, Option<Key>>, id: nat,
                  key: Option<Key>)
    requires id !in a
    ensures u + i[id := key] + a == (u + i + a)[id := key]
  {}

  lemma AddToRest(e: map<nat, Option<Key>>, o: map<nat, Option<Key>>, id: nat, key: Option<Key>)
    ensures e + o[id := key] == (e + o)[id := key]
  {}

  lemma MoveSecondToThird(u: map<nat, Option<Key>>, i: map<nat, Option<Key>>, a: map<nat, Option<Key>>, id: nat)
    requires id in i && id !in a && id !in u
    ensures u + (i - {id}) + a[id := i[id]] == u + i + a
  {}

  /** Moving a waiting command to the answered ones changes no key. */
  lemma AnsweredKeeps(b: Bus, b': Bus, id: nat, r: CoreResult)
    requires Tracked(b) && id in b.inflight.at
    requires b' == b.(inflight := b.inflight.Remove(id), answered := b.answered.Put(id, Answer(b.inflight.at[id], r)))
    ensures Tracked(b') && Outstanding(b') == Outstanding(b)
  {
    hide Outstanding, Known, TablesValid, IdsDisjoint, IdsTaken, OwnersTracked;
    AnsweredKnown(b, b', id, r);
    AnsweredTables(b, b', id, r);
    SameKnown(b, b');
  }

  lemma AnsweredTables(b: Bus, b': Bus, id: nat, r: CoreResult)
    requires TablesValid(b) && IdsDisjoint(b) && id in b.inflight.at
    requires b' == b.(inflight := b.inflight.Remove(id), answered := b.answered.Put(id, Answer(b.inflight.at[id], r)))
    ensures TablesValid(b') && IdsDisjoint(b')
  {
    b.inflight.RemoveValid(id);
    b.answered.PutValid(id, Answer(b.inflight.at[id], r));
    assert b'.inflight.at.Keys == b.inflight.at.Keys - {id};
    assert b'.answered.at.Keys == b.answered.at.Keys + {id};
  }

  lemma SameKnown(b: Bus, b': Bus)
    requires IdsTaken(b) && OwnersTracked(b) && Known(b') == Known(b) && b'.owner == b.owner && b'.next == b.next
    ensures IdsTaken(b') && OwnersTracked(b')
  {
    hide Known;
  }

  lemma AnsweredKnown(b: Bus, b': Bus, id: nat, r: CoreResult)
    requires IdsDisjoint(b) && id in b.inflight.at
    requires b' == b.(inflight := b.inflight.Remove(id), answered := b.answered.Put(id, Answer(b.inflight.at[id], r)))
    ensures Outstanding(b') == Outstanding(b) && Known(b') == Known(b)
  {
    assert AnsweredKeys(b'.answered) == AnsweredKeys(b.answered)[id := b.inflight.at[id]];
    MoveSecondToThird(b.unknown.at, b.inflight.at, AnsweredKeys(b.answered), id);
  }

  lemma StillDisjoint(b: Bus, b': Bus)
    requires IdsDisjoint(b)
    requires b'.inflight.at.Keys <= b.inflight.at.Keys && b'.answered.at.Keys <= b.answered.at.Keys
    requires b'.unknown.at.Keys <= b.unknown.at.Keys && b'.expired.at.Keys <= b.expired.at.Keys
    ensures IdsDisjoint(b')
  {}

  /** Settling a command that has just left its table, whose ownership is the only one it may hold. */
  lemma SettleTracked(b: Bus, c: Cards, key: Option<Key>, id: nat, r: CoreResult)
    requires TablesValid(b) && IdsDisjoint(b) && IdsTaken(b) && OwnersKnownBut(b, id, key)
    requires id !in Known(b)
    ensures var (b', c', _) := SettleKey(b, c, key, id, r);
            Tracked(b') && Outstanding(b') == Outstanding(b) && b' == b.(owner := b'.owner)
  {
    var (b', c', mine) := SettleKey(b, c, key, id, r);
    assert Known(b') == Known(b);
  }

  lemma ResumeTracked(b: Bus, c: Cards, id: nat, maxUnknown: nat)
    requires BusInv(b, maxUnknown) && id in b.answered.at
    ensures var (b', _) := Resume(b, c, id);
            && BusInv(b', maxUnknown) && Outstanding(b') == Outstanding(b) - {id}
            && b'.next == b.next && b'.inflight == b.inflight && b'.answered == b.answered.Remove(id)
    ensures id in Outstanding(b) && Outstanding(b)[id] == b.answered.at[id].key
  {
    var a := b.answered.at[id];
    var b1 := b.(answered := b.answered.Remove(id));
    b.answered.RemoveValid(id);
    TakenOut(b, b1, id);
    StillDisjoint(b, b1);
    SettleTracked(b1, c, a.key, id, a.result);
  }

  lemma ResumeKeeps(s: Sys, id: nat)
    requires Inv(s)
    ensures Inv(Step(s, Resumes(id)))
  {
    if id in s.bus.answered.at {
      var t := Step(s, Resumes(id));
      ResumeTracked(s.bus, s.cards, id, s.maxUnknown);
      SettleKeeps(s.maxUnknown >= 1, Outstanding(s.bus), s.bus.(answered := s.bus.answered.Remove(id)), s.cards, s.h,
                  id, s.bus.answered.at[id].result);
      RepliesAside(s.maxUnknown >= 1, Outstanding(t.bus), t.bus.owner, t.cards, s.h, t.h);
      ReplyKeeps(s.bus, s.h, t.bus, id);
    }
  }

  /** Replies are no part of the card invariant. */
  lemma RepliesAside(firm: bool, o: map<nat, Option<Key>>, owner: map<Key, nat>, c: Cards, h: History, h': History)
    requires CardInv(firm, o, owner, c, h)
    requires h'.answers == h.answers && h'.born == h.born
    ensures CardInv(firm, o, owner, c, h')
  {
    forall i | Keyed(o, h', i) ensures Keyed(o, h, i) {}
    forall i | Current(o, c, h', i) ensures Current(o, c, h, i) {}
  }

  lemma ReplyKeeps(b: Bus, h: History, b': Bus, id: nat)
    requires OneReply(b, h) && b'.next == b.next
    requires id in b.inflight.at || id in b.answered.at
    requires b'.inflight.at.Keys == b.inflight.at.Keys - {id} && b'.answered.at.Keys == b.answered.at.Keys - {id}
    ensures OneReply(b', h.(replied := h.replied + [id]))
  {}

  /** An unknown command taken out of its table. */
  lemma UnknownTakenOut(b: Bus, b1: Bus, id: nat, maxUnknown: nat)
    requires BusInv(b, maxUnknown) && id in b.unknown.at && b1 == b.(unknown := b.unknown.Remove(id))
    ensures TablesValid(b1) && IdsDisjoint(b1) && IdsTaken(b1) && OwnersKnownBut(b1, id, b.unknown.at[id])
    ensures id !in Known(b1) && id < b1.next && |b1.expired.order| <= maxUnknown
    ensures Outstanding(b1) == Outstanding(b) - {id} && id in Outstanding(b) && Outstanding(b)[id] == b.unknown.at[id]
  {
    b.unknown.RemoveValid(id);
    TakenOut(b, b1, id);
    StillDisjoint(b, b1);
    assert id in Known(b);
  }

  /** A tombstone taken out of its table. */
  lemma ExpiredTakenOut(b: Bus, b1: Bus, id: nat, maxUnknown: nat)
    requires BusInv(b, maxUnknown) && id in b.expired.at && b1 == b.(expired := b.expired.Remove(id))
    ensures TablesValid(b1) && IdsDisjoint(b1) && IdsTaken(b1) && OwnersKnownBut(b1, id, b.expired.at[id])
    ensures id !in Known(b1) && |b1.expired.order| <= maxUnknown
    ensures Outstanding(b1) == Outstanding(b) && id !in Outstanding(b)
  {
    b.expired.RemoveValid(id);
    assert id !in Outstanding(b);
    KnownShrinks(b, id);
    StillDisjoint(b, b1);
    hide Outstanding;
    assert Known(b)[id] == b.expired.at[id];
  }

  /** Replies depend on who waits and who is answered only. */
  lemma RepliesStay(b: Bus, b': Bus, h: History)
    requires OneReply(b, h) && b'.next == b.next && b'.inflight == b.inflight && b'.answered == b.answered
    ensures OneReply(b', h)
  {}

  lemma LateKeeps(s: Sys, id: nat, r: CoreResult)
    requires Inv(s) && id !in s.bus.inflight.at && id in s.bus.unknown.at
    ensures Inv(Step(s, ResultLine(Web(id), r)))
  {
    hide CardInv, SettleKey, Outstanding, TablesValid, IdsDisjoint, IdsTaken, OwnersTracked, OwnersKnownBut, OneReply;
    var key, b1 := s.bus.unknown.at[id], s.bus.(unknown := s.bus.unknown.Remove(id));
    UnknownTakenOut(s.bus, b1, id, s.maxUnknown);
    SettleTracked(b1, s.cards, key, id, r);
    SettleKeeps(s.maxUnknown >= 1, Outstanding(s.bus), b1, s.cards, s.h, id, r);
    RepliesStay(s.bus, SettleKey(b1, s.cards, key, id, r).0, s.h);
  }

  lemma VeryLateKeeps(s: Sys, id: nat, r: CoreResult)
    requires Inv(s) && id !in s.bus.inflight.at && id !in s.bus.unknown.at && id in s.bus.expired.at
    ensures Inv(Step(s, ResultLine(Web(id), r)))
  {
    hide CardInv, SettleKey, Outstanding, TablesValid, IdsDisjoint, IdsTaken, OwnersTracked, OwnersKnownBut, OneReply;
    var key, b1 := s.bus.expired.at[id], s.bus.(expired := s.bus.expired.Remove(id));
    ExpiredTakenOut(s.bus, b1, id, s.maxUnknown);
    SettleTracked(b1, s.cards, key, id, r);
    LateSettleKeeps(s.maxUnknown >= 1, Outstanding(s.bus), b1, s.cards, s.h, key, id, r);
    RepliesStay(s.bus, SettleKey(b1, s.cards, key, id, r).0, s.h);
  }

  lemma ResultKeeps(s: Sys, rid: ResultId, r: CoreResult)
    requires Inv(s)
    ensures Inv(Step(s, ResultLine(rid, r)))
  {
    var waiter := WaiterOf(s.bus, rid);
    if waiter.Some? {
      assert waiter.value in s.bus.inflight.order;
      AnsweredKeeps(s.bus, Step(s, ResultLine(rid, r)).bus, waiter.value, r);
    } else if rid.Web? && rid.n in s.bus.unknown.at {
      LateKeeps(s, rid.n, r);
    } else if rid.Web? && rid.n in s.bus.expired.at {
      VeryLateKeeps(s, rid.n, r);
    }
  }

  /** What `RememberUnknown` leaves of a bus `b` from which command `id` has just been taken. */
  ghost predicate Remembered(b: Bus, b': Bus, id: nat, key: Option<Key>) {
    && b'.next == b.next && b'.inflight == b.inflight && b'.answered == b.answered
    && id in Outstanding(b') && Outstanding(b')[id] == key
    && (forall i :: i in Outstanding(b') && i != id ==> i in Outstanding(b) && Outstanding(b')[i] == Outstanding(b)[i])
    && (forall i :: i in Outstanding(b) && Outstanding(b)[i].Some? ==> i in Outstanding(b'))
    && (forall k :: k in b.owner && (b.owner[k] in Outstanding(b) || b.owner[k] == id)
         ==> k in b'.owner && b'.owner[k] == b.owner[k])
  }

  lemma AddFirst(u: map<nat, Option<Key>>, i: map<nat, Option<Key>>, a: map<nat, Option<Key>>, id: nat,
                 key: Option<Key>)
    requires id !in a && id !in i
    ensures u[id := key] + i + a == (u + i + a)[id := key]
  {}

  lemma PutUnknownKeeps(b: Bus, id: nat, key: Option<Key>)
    requires TablesValid(b) && IdsDisjoint(b) && IdsTaken(b)
    requires id < b.next && id !in Known(b) && OwnersKnownBut(b, id, key)
    ensures var plus := b.(unknown := b.unknown.Put(id, key));
            Tracked(plus) && Outstanding(plus) == Outstanding(b)[id := key]
  {
    var plus := b.(unknown := b.unknown.Put(id, key));
    b.unknown.PutValid(id, key);
    AddFirst(b.unknown.at, b.inflight.at, AnsweredKeys(b.answered), id, key);
    AddToRest(b.expired.at, Outstanding(b), id, key);
    assert plus.unknown.at.Keys == b.unknown.at.Keys + {id};
  }

  lemma RememberKeeps(b: Bus, id: nat, key: Option<Key>, maxUnknown: nat)
    requires TablesValid(b) && IdsDisjoint(b) && IdsTaken(b) && |b.expired.order| <= maxUnknown
    requires id < b.next && id !in Known(b) && OwnersKnownBut(b, id, key)
    ensures BusInv(RememberUnknown(b, id, key, maxUnknown), maxUnknown)
    ensures Remembered(b, RememberUnknown(b, id, key, maxUnknown), id, key)
  {
    PutUnknownKeeps(b, id, key);
    var victim := if |b.unknown.order| >= maxUnknown then FirstKeyless(b.unknown.order, b.unknown.at) else None;
    if victim.Some? {
      EvictKeeps(b, id, key, victim.value, maxUnknown);
    }
  }

  lemma EvictKeeps(b: Bus, id: nat, key: Option<Key>, v: nat, maxUnknown: nat)
    requires id !in Known(b) && v in b.unknown.at && b.unknown.at[v] == None && |b.expired.order| <= maxUnknown
    requires Tracked(b.(unknown := b.unknown.Put(id, key)))
    requires Outstanding(b.(unknown := b.unknown.Put(id, key))) == Outstanding(b)[id := key]
    requires b.expired.Valid()
    ensures var b1 := Tombstone(b.(unknown := b.unknown.Remove(v)), v, None, maxUnknown);
            var b' := b1.(unknown := b1.unknown.Put(id, key));
            BusInv(b', maxUnknown) && Remembered(b, b', id, key)
  {
    var plus := b.(unknown := b.unknown.Put(id, key));
    var less := plus.(unknown := plus.unknown.Remove(v));
    SwapPutRemove(b.unknown, v, id, key);
    EvictTracked(plus, less, v, maxUnknown);
    TombstoneAside(b, b.unknown.Remove(v), v, maxUnknown);
    TombstoneAside(b, less.unknown, v, maxUnknown);
    EvictRemembers(b, Outstanding(plus), Tombstone(less, v, None, maxUnknown), id, key, v);
  }

  lemma SwapPutRemove(u: Keyed, v: nat, id: nat, key: Option<Key>)
    requires v in u.at && id !in u.at
    ensures u.Put(id, key).Remove(v) == u.Remove(v).Put(id, key)
  {
    WithoutAppend(u.order, v, id);
    assert u.Put(id, key).Remove(v).at == u.Remove(v).Put(id, key).at;
  }

  lemma TombstoneAside(b: Bus, u: Keyed, v: nat, maxUnknown: nat)
    requires b.expired.Valid()
    ensures Tombstone(b.(unknown := u), v, None, maxUnknown) == Tombstone(b, v, None, maxUnknown).(unknown := u)
  {}

  lemma EvictRemembers(b: Bus, o: map<nat, Option<Key>>, b': Bus, id: nat, key: Option<Key>, v: nat)
    requires o == Outstanding(b)[id := key] && id !in Outstanding(b) && v in Outstanding(b) && Outstanding(b)[v] == None
    requires Outstanding(b') == o - {v}
    requires b'.next == b.next && b'.inflight == b.inflight && b'.answered == b.answered
    requires forall k :: k in b.owner && b.owner[k] in o ==> k in b'.owner && b'.owner[k] == b.owner[k]
    ensures Remembered(b, b', id, key)
  {}

  lemma EvictTracked(plus: Bus, less: Bus, v: nat, maxUnknown: nat)
    requires Tracked(plus) && |plus.expired.order| <= maxUnknown
    requires v in plus.unknown.at && plus.unknown.at[v] == None && less == plus.(unknown := plus.unknown.Remove(v))
    ensures less.expired.Valid()
    ensures var b' := Tombstone(less, v, None, maxUnknown);
            && BusInv(b', maxUnknown) && Outstanding(b') == Outstanding(plus) - {v}
            && Outstanding(plus)[v] == None
            && b'.next == plus.next && b'.inflight == plus.inflight && b'.answered == plus.answered
                 && b'.unknown == less.unknown
            && (forall k :: k in plus.owner && plus.owner[k] in Outstanding(plus)
                 ==> k in b'.owner && b'.owner[k] == plus.owner[k])
  {
    plus.unknown.RemoveValid(v);
    TakenOut(plus, less, v);
    StillDisjoint(plus, less);
    assert forall k :: k in plus.owner ==> plus.owner[k] != v;
    TombstoneKeeps(less, v, None, maxUnknown);
  }

  lemma TimeoutTracked(b: Bus, id: nat, maxUnknown: nat)
    requires BusInv(b, maxUnknown) && id in b.inflight.at
    ensures var b' := TimedOut(b, id, maxUnknown);
            && BusInv(b', maxUnknown)
            && b'.next == b.next && b'.inflight == b.inflight.Remove(id) && b'.answered == b.answered
            && (forall i :: i in Outstanding(b') ==> i in Outstanding(b) && Outstanding(b')[i] == Outstanding(b)[i])
            && (forall i :: i in Outstanding(b) && Outstanding(b)[i].Some? ==> i in Outstanding(b'))
            && (forall k :: k in b.owner && b.owner[k] in Outstanding(b) ==> k in b'.owner && b'.owner[k] == b.owner[k])
  {
    var b1 := b.(inflight := b.inflight.Remove(id));
    b.inflight.RemoveValid(id);
    TakenOut(b, b1, id);
    StillDisjoint(b, b1);
    RememberKeeps(b1, id, b.inflight.at[id], maxUnknown);
  }

  lemma TimeoutKeeps(s: Sys, id: nat)
    requires Inv(s)
    ensures Inv(Step(s, TimeoutFires(id)))
  {
    if id in s.bus.inflight.at {
      var t := Step(s, TimeoutFires(id));
      TimeoutTracked(s.bus, id, s.maxUnknown);
      ReplyKeeps(s.bus, s.h, t.bus, id);
      LeaveKeeps(s.maxUnknown >= 1, Outstanding(s.bus), Outstanding(t.bus), s.bus.owner, t.bus.owner, s.cards, s.h);
      RepliesAside(s.maxUnknown >= 1, Outstanding(t.bus), t.bus.owner, t.cards, s.h, t.h);
    }
  }

  lemma UnknownKeeps(s: Sys, id: nat)
    requires Inv(s)
    ensures Inv(Step(s, UnknownFires(id)))
  {
    hide CardInv, Tombstone, TablesValid, IdsDisjoint, IdsTaken, OneReply;
    if id in s.bus.unknown.at {
      var key, b1 := s.bus.unknown.at[id], s.bus.(unknown := s.bus.unknown.Remove(id));
      UnknownTakenOut(s.bus, b1, id, s.maxUnknown);
      var b2 := Tombstone(b1, id, key, s.maxUnknown);
      GivenUp(s.bus, b1, b2, id, key, s.maxUnknown);
      GiveUpKeeps(s.maxUnknown >= 1, Outstanding(s.bus), s.bus, b2, s.cards, s.h, id);
      RepliesStay(s.bus, b2, s.h);
    }
  }

  lemma GivenUp(b: Bus, b1: Bus, b2: Bus, id: nat, key: Option<Key>, maxUnknown: nat)
    requires BusInv(b, maxUnknown) && id in b.unknown.at && key == b.unknown.at[id]
    requires b1 == b.(unknown := b.unknown.Remove(id)) && b1.expired.Valid()
    requires b2 == Tombstone(b1, id, key, maxUnknown)
    ensures BusInv(b2, maxUnknown) && Outstanding(b2) == Outstanding(b) - {id}
    ensures b2.next == b.next && b2.inflight == b.inflight && b2.answered == b.answered
    ensures forall k :: k in b.owner && b.owner[k] in Outstanding(b) - {id} ==>
              k in b2.owner && b2.owner[k] == b.owner[k]
    ensures forall k :: k in b2.owner && b2.owner[k] == id ==> k in b.owner && b.owner[k] == id
    ensures maxUnknown >= 1 ==> forall k :: k in b.owner && b.owner[k] == id ==> k in b2.owner && b2.owner[k] == id
  {
    hide Tombstone, TablesValid, IdsDisjoint, IdsTaken;
    UnknownTakenOut(b, b1, id, maxUnknown);
    TombstoneKeeps(b1, id, key, maxUnknown);
    TombstoneOnlyLoses(b1, id, key, maxUnknown);
  }

  lemma AppendDistinct(s: seq<nat>, t: seq<nat>)
    requires Distinct(s) && Distinct(t) && (forall x :: x in s ==> x !in t)
    ensures Distinct(s + t)
  {
    forall i, j | 0 <= i < j < |s + t| ensures (s + t)[i] != (s + t)[j] {
      assert i < |s| ==> s[i] in s;
      assert j >= |s| ==> t[j - |s|] in t;
    }
  }

  lemma ExitTracked(b: Bus, c: Cards, h: History, maxUnknown: nat)
    requires BusInv(b, maxUnknown) && OneReply(b, h)
    ensures var (b', _) := ChildExit(b, c);
            && BusInv(b', maxUnknown) && OneReply(b', h.(replied := h.replied + b.inflight.order))
            && Outstanding(b') == AnsweredKeys(b.answered)
  {
    hide Reopen;
    var b' := ChildExit(b, c).0;
    assert b' == b.(inflight := Empty(), unknown := Empty(), expired := Empty(), owner := map[]);
    assert Outstanding(b') == AnsweredKeys(b.answered);
    OnlyAnsweredStay(b, b');
    AppendDistinct(h.replied, b.inflight.order);
  }

  lemma OnlyAnsweredStay(b: Bus, b': Bus)
    requires b' == b.(inflight := Empty(), unknown := Empty(), expired := Empty(), owner := map[])
    ensures Known(b') == AnsweredKeys(b.answered)
    ensures forall i :: i in Known(b') ==> i in Known(b)
  {}

  lemma ExitKeeps(s: Sys)
    requires Inv(s)
    ensures Inv(Step(s, ChildExits))
  {
    var t := Step(s, ChildExits);
    ExitTracked(s.bus, s.cards, s.h, s.maxUnknown);
    NoCardsKeep(s.maxUnknown >= 1, Outstanding(s.bus), Outstanding(t.bus), s.bus.owner, t.bus.owner, s.cards, t.cards,
                s.h, t.h);
  }

  lemma NoCardsKeep(firm: bool, o: map<nat, Option<Key>>, o': map<nat, Option<Key>>, owner: map<Key, nat>,
                    owner': map<Key, nat>, c: Cards, c': Cards, h: History, h': History)
    requires CardInv(firm, o, owner, c, h)
    requires forall id :: id in o' ==> id in o && o'[id] == o[id]
    requires c' == GatewayExited(c')
    requires h'.answers == h.answers && h'.born == h.born
    ensures CardInv(firm, o', owner', c', h')
  {
    forall i | Keyed(o', h', i) ensures Keyed(o, h, i) {}
  }

  lemma RequestOnly(c: Cards, id: string, agent: string, tool: Print, args: Content)
    requires Printed(c)
    ensures TouchesOnly(c, Request(c, id, agent, tool, args), A(id))
  {}

  lemma AskOnly(c: Cards, id: string, text: string)
    requires Printed(c)
    ensures TouchesOnly(c, Ask(c, id, text), Q(id))
  {}

  /** Cards that differ from `c` at most in key k, which is then pending and as much being answered as before. */
  ghost predicate TouchesOnly(c: Cards, c': Cards, k: Key) {
    && Printed(c')
    && (c' != c ==> Pending(c', k))
    && (forall x :: x != k ==> Pending(c', x) == Pending(c, x))
    && (forall x :: Resolving(c', x) == Resolving(c, x))
  }

  lemma CreateKeeps(s: Sys, c': Cards, k: Key)
    requires Inv(s) && TouchesOnly(s.cards, c', k)
    ensures Inv(Creates(s, c', k))
  {
    hide CardInv, BusInv, OneReply;
    var t := Creates(s, c', k);
    if c' != s.cards {
      BirthKeeps(s.maxUnknown >= 1, Outstanding(s.bus), s.bus.owner, s.cards, c', s.h, t.h, k);
      BirthsAside(s.bus, s.h, t.h);
    }
  }

  /** Births are no part of the replies. */
  lemma BirthsAside(b: Bus, h: History, h': History)
    requires OneReply(b, h) && h'.sent == h.sent && h'.replied == h.replied
    ensures OneReply(b, h')
  {}

  lemma CardEventKeeps(s: Sys, e: Event)
    requires Inv(s)
    requires e.ApprovalGone? || e.SessionStarts? || e.SessionEnds?
    ensures Inv(Step(s, e))
  {
    if e.ApprovalGone? { ReleaseOnly(s.cards, A(e.aid)); }
    CardsLeaveKeeps(s.maxUnknown >= 1, Outstanding(s.bus), s.bus.owner, s.cards, Step(s, e).cards, s.h);
  }

  lemma QuestionKeeps(s: Sys, id: string, text: string)
    requires Inv(s)
    ensures Inv(Step(s, QuestionAsked(id, text)))
  {
    hide BusInv, OneReply, Ask;
    AskOnly(s.cards, id, text);
    CreateKeeps(s, Ask(s.cards, id, text), Q(id));
  }

  lemma RequestKeeps(s: Sys, e: Event)
    requires Inv(s) && e.ApprovalRequested?
    ensures Inv(Step(s, e))
  {
    hide BusInv, OneReply, Request;
    RequestOnly(s.cards, e.aid, e.agent, e.tool, e.args);
    CreateKeeps(s, Request(s.cards, e.aid, e.agent, e.tool, e.args), A(e.aid));
  }

  lemma StepKeeps(s: Sys, e: Event)
    requires Inv(s)
    ensures Inv(Step(s, e))
  {
    hide Inv, Step;
    match e
    case Post(cmd, alive, accepted) => PostKeeps(s, cmd, alive, accepted);
    case ResultLine(rid, r) => ResultKeeps(s, rid, r);
    case Resumes(id) => ResumeKeeps(s, id);
    case TimeoutFires(id) => TimeoutKeeps(s, id);
    case UnknownFires(id) => UnknownKeeps(s, id);
    case ChildExits => ExitKeeps(s);
    case QuestionAsked(id, text) => QuestionKeeps(s, id, text);
    case ApprovalRequested(_, _, _, _) => RequestKeeps(s, e);
    case _ => CardEventKeeps(s, e);
  }

  // ---- Runs -----------------------------------------------------------------------------------------

  lemma BuryValid(b: Bus, id: nat, key: Option<Key>, maxUnknown: nat)
    requires TablesValid(b)
    ensures TablesValid(Tombstone(b, id, key, maxUnknown))
  {
    b.expired.PutValid(id, key);
    var grown := b.expired.Put(id, key);
    if |grown.order| > maxUnknown { grown.RemoveValid(grown.order[0]); }
  }

  lemma RememberValid(b: Bus, id: nat, key: Option<Key>, maxUnknown: nat)
    requires TablesValid(b)
    ensures TablesValid(RememberUnknown(b, id, key, maxUnknown))
  {
    var victim := if |b.unknown.order| >= maxUnknown then FirstKeyless(b.unknown.order, b.unknown.at) else None;
    if victim.Some? {
      b.unknown.RemoveValid(victim.value);
      var b1 := b.(unknown := b.unknown.Remove(victim.value));
      BuryValid(b1, victim.value, None, maxUnknown);
      b1.unknown.PutValid(id, key);
    } else {
      b.unknown.PutValid(id, key);
    }
  }

  lemma ResultValid(s: Sys, rid: ResultId, r: CoreResult)
    requires TablesValid(s.bus)
    ensures TablesValid(Step(s, ResultLine(rid, r)).bus)
  {
    var waiter := WaiterOf(s.bus, rid);
    if waiter.Some? {
      var id := waiter.value;
      assert id in s.bus.inflight.order;
      s.bus.inflight.RemoveValid(id);
      s.bus.answered.PutValid(id, Answer(s.bus.inflight.at[id], r));
    } else if rid.Web? {
      s.bus.unknown.RemoveValid(rid.n);
      s.bus.expired.RemoveValid(rid.n);
    }
  }

  lemma TimerValid(s: Sys, e: Event)
    requires TablesValid(s.bus) && (e.TimeoutFires? || e.UnknownFires?)
    ensures TablesValid(Step(s, e).bus)
  {
    hide Tombstone, RememberUnknown;
    match e
    case TimeoutFires(id) =>
      if id in s.bus.inflight.at {
        s.bus.inflight.RemoveValid(id);
        RememberValid(s.bus.(inflight := s.bus.inflight.Remove(id)), id, s.bus.inflight.at[id], s.maxUnknown);
      }
    case UnknownFires(id) =>
      if id in s.bus.unknown.at {
        s.bus.unknown.RemoveValid(id);
        BuryValid(s.bus.(unknown := s.bus.unknown.Remove(id)), id, s.bus.unknown.at[id], s.maxUnknown);
      }
  }

  lemma OtherValid(s: Sys, e: Event)
    requires TablesValid(s.bus) && !e.TimeoutFires? && !e.UnknownFires? && !e.ResultLine?
    ensures TablesValid(Step(s, e).bus)
  {
    hide Reopen, Request, Ask, Check;
    match e
    case Post(cmd, _, _) => s.bus.inflight.PutValid(s.bus.next, cmd.key);
    case Resumes(id) => s.bus.answered.RemoveValid(id);
    case _ =>
  }

  lemma StepValid(s: Sys, e: Event)
    requires TablesValid(s.bus)
    ensures TablesValid(Step(s, e).bus) && Step(s, e).maxUnknown == s.maxUnknown
  {
    hide TablesValid, OnResult, Send, Judge, Tombstone, RememberUnknown, SettleKey, Reopen, Request, Ask;
    match e
    case ResultLine(rid, r) => ResultValid(s, rid, r);
    case TimeoutFires(_) => TimerValid(s, e);
    case UnknownFires(_) => TimerValid(s, e);
    case _ => OtherValid(s, e);
  }

  /** The state after a sequence of steps; a step that is not enabled changes nothing. */
  function Run(s: Sys, es: seq<Event>): (r: Sys)
    requires TablesValid(s.bus)
    ensures TablesValid(r.bus) && r.maxUnknown == s.maxUnknown
    decreases |es|
  {
    if es == [] then s
    else
      StepValid(s, es[0]);
      Run(Step(s, es[0]), es[1..])
  }

  lemma {:induction false} RunKeeps(s: Sys, es: seq<Event>)
    requires Inv(s)
    ensures Inv(Run(s, es))
    decreases |es|
  {
    if es != [] {
      StepKeeps(s, es[0]);
      RunKeeps(Step(s, es[0]), es[1..]);
    }
  }

  lemma StartInv(maxUnknown: nat)
    ensures Inv(Start(maxUnknown))
  {}

  /** What every reachable state satisfies: each card that is being answered belongs to an
      outstanding command that owns it; every owner is a known command for that key; the four
      tables share no id and hold only ids already taken; tombstones stay within the bound. */
  lemma NoCardIsEverStuck(maxUnknown: nat, es: seq<Event>)
    requires maxUnknown >= 1
    ensures var s := Run(Start(maxUnknown), es);
            && NoCardStuck(Outstanding(s.bus), s.bus.owner, s.cards, s.h)
            && OwnersTracked(s.bus) && IdsDisjoint(s.bus) && IdsTaken(s.bus)
            && |s.bus.expired.order| <= maxUnknown
            && Printed(s.cards)
  {
    StartInv(maxUnknown);
    RunKeeps(Start(maxUnknown), es);
  }

  /** In every reachable state at most one command is outstanding for each incarnation of a
      key, and an answerable card has none: the next answer cannot be a second one. */
  lemma NoCardIsAnsweredTwice(maxUnknown: nat, es: seq<Event>, i: nat, j: nat)
    requires var s := Run(Start(maxUnknown), es);
             Keyed(Outstanding(s.bus), s.h, i) && Keyed(Outstanding(s.bus), s.h, j)
    ensures var s := Run(Start(maxUnknown), es);
            && (s.h.answers[i] == s.h.answers[j] ==> i == j)
            && (s.h.answers[i].0 == Outstanding(s.bus)[i].value && s.h.answers[i].1 <= Born(s.h, s.h.answers[i].0))
            && (Pending(s.cards, s.h.answers[i].0) && s.h.answers[i].1 == Born(s.h, s.h.answers[i].0) ==>
                  Resolving(s.cards, s.h.answers[i].0))
  {
    StartInv(maxUnknown);
    RunKeeps(Start(maxUnknown), es);
  }

  /** Each sent command is waiting, or has had exactly one reply. */
  lemma EverySentCommandHasOneReply(maxUnknown: nat, es: seq<Event>)
    ensures var s := Run(Start(maxUnknown), es);
            && Distinct(s.h.sent) && Distinct(s.h.replied)
            && (forall id :: id in s.h.sent <==>
                 id in s.bus.inflight.at || id in s.bus.answered.at || id in s.h.replied)
            && (forall id :: id in s.h.replied ==> id !in s.bus.inflight.at && id !in s.bus.answered.at)
  {
    StartInv(maxUnknown);
    RunKeeps(Start(maxUnknown), es);
  }

  lemma KnownAt(b: Bus, id: nat)
    requires IdsDisjoint(b)
    ensures id in b.inflight.at ==>
              && id in Known(b) && Known(b)[id] == b.inflight.at[id]
              && id !in b.answered.at && id !in b.unknown.at && id !in b.expired.at
    ensures id in b.answered.at ==>
              && id in Known(b) && Known(b)[id] == b.answered.at[id].key
              && id !in b.inflight.at && id !in b.unknown.at && id !in b.expired.at
    ensures id in b.unknown.at ==>
              && id in Known(b) && Known(b)[id] == b.unknown.at[id]
              && id !in b.inflight.at && id !in b.answered.at && id !in b.expired.at
    ensures id in b.expired.at ==>
              && id in Known(b) && Known(b)[id] == b.expired.at[id]
              && id !in b.inflight.at && id !in b.answered.at && id !in b.unknown.at
    ensures id in Known(b) ==> id in b.inflight.at || id in b.answered.at || id in b.unknown.at || id in b.expired.at
  {}

  ghost predicate Free(c: Cards, k: Key, dropped: bool) {
    !Resolving(c, k) && (Pending(c, k) <==> !dropped)
  }

  lemma SettleFrees(b: Bus, c: Cards, k: Key, id: nat, r: CoreResult)
    requires k in b.owner && b.owner[k] == id && Pending(c, k)
    ensures Free(SettleKey(b, c, Some(k), id, r).1, k, Drops(r))
  {}

  lemma ResumeFrees(s: Sys, k: Key)
    requires IdsDisjoint(s.bus) && OwnersTracked(s.bus) && TablesValid(s.bus)
    requires k in s.bus.owner && s.bus.owner[k] in s.bus.answered.at && Pending(s.cards, k)
    ensures Free(Step(s, Resumes(s.bus.owner[k])).cards, k, Drops(s.bus.answered.at[s.bus.owner[k]].result))
  {
    var id := s.bus.owner[k];
    KnownAt(s.bus, id);
    SettleFrees(s.bus.(answered := s.bus.answered.Remove(id)), s.cards, k, id, s.bus.answered.at[id].result);
  }

  lemma LateResultFrees(s: Sys, k: Key, r: CoreResult)
    requires IdsDisjoint(s.bus) && OwnersTracked(s.bus) && TablesValid(s.bus)
    requires k in s.bus.owner && s.bus.owner[k] in s.bus.unknown.at && Pending(s.cards, k)
    ensures Free(Step(s, ResultLine(Web(s.bus.owner[k]), r)).cards, k, Drops(r))
  {
    var id := s.bus.owner[k];
    KnownAt(s.bus, id);
    SettleFrees(s.bus.(unknown := s.bus.unknown.Remove(id)), s.cards, k, id, r);
  }

  lemma TombstonedStillOwns(b: Bus, id: nat, k: Key, maxUnknown: nat)
    requires Tracked(b) && |b.expired.order| <= maxUnknown && maxUnknown >= 1
    requires k in b.owner && b.owner[k] == id && id in b.unknown.at
    ensures b.unknown.at[id] == Some(k)
    ensures Owns(Tombstone(b.(unknown := b.unknown.Remove(id)), id, Some(k), maxUnknown), Some(k), id)
  {
    hide Tombstone;
    KnownAt(b, id);
    var b1 := b.(unknown := b.unknown.Remove(id));
    b.unknown.RemoveValid(id);
    TakenOut(b, b1, id);
    StillDisjoint(b, b1);
    TombstoneKeeps(b1, id, Some(k), maxUnknown);
  }

  lemma UnknownTimerFrees(s: Sys, k: Key)
    requires Tracked(s.bus) && |s.bus.expired.order| <= s.maxUnknown && s.maxUnknown >= 1
    requires k in s.bus.owner && s.bus.owner[k] in s.bus.unknown.at && Pending(s.cards, k)
    ensures Free(Step(s, UnknownFires(s.bus.owner[k])).cards, k, false)
  {
    var id := s.bus.owner[k];
    TombstonedStillOwns(s.bus, id, k, s.maxUnknown);
    ExpiredCards(s, id, k);
    hide Step, Tombstone, Tracked, SetResolving;
    SetResolvingOnly(s.cards, k, false);
  }

  lemma ExpiredCards(s: Sys, id: nat, k: Key)
    requires TablesValid(s.bus) && id in s.bus.unknown.at && s.bus.unknown.at[id] == Some(k)
    requires var b1 := s.bus.(unknown := s.bus.unknown.Remove(id));
             Owns(Tombstone(b1, id, Some(k), s.maxUnknown), Some(k), id)
    ensures Step(s, UnknownFires(id)).cards == SetResolving(s.cards, k, false)
  {
    hide Tombstone, SetResolving;
  }

  lemma TimeoutRemembers(s: Sys, k: Key)
    requires BusInv(s.bus, s.maxUnknown)
    requires k in s.bus.owner && s.bus.owner[k] in s.bus.inflight.at
    ensures var t := Step(s, TimeoutFires(s.bus.owner[k]));
            s.bus.owner[k] in t.bus.unknown.at && k in t.bus.owner && t.bus.owner[k] == s.bus.owner[k]
  {
    var id := s.bus.owner[k];
    TimeoutTracked(s.bus, id, s.maxUnknown);
    KnownAt(s.bus, id);
  }

  /** The owner of a card being answered frees it, however it ends. A result in time moves it
      to the answered ones, whose verdict frees the card; a timeout moves it to the unknown
      ones, whose timer or late result frees the card. Freed means gone, or answerable again. */
  lemma OwnerFreesItsCard(s: Sys, k: Key, r: CoreResult)
    requires Inv(s) && s.maxUnknown >= 1 && Resolving(s.cards, k)
    ensures k in s.bus.owner && s.bus.owner[k] in Outstanding(s.bus)
    ensures s.bus.owner[k] in s.bus.inflight.at ==>
              && s.bus.owner[k] in Step(s, ResultLine(Web(s.bus.owner[k]), r)).bus.answered.at
              && s.bus.owner[k] in Step(s, TimeoutFires(s.bus.owner[k])).bus.unknown.at
    ensures s.bus.owner[k] in s.bus.answered.at ==>
              Free(Step(s, Resumes(s.bus.owner[k])).cards, k, Drops(s.bus.answered.at[s.bus.owner[k]].result))
    ensures s.bus.owner[k] in s.bus.unknown.at ==>
              && Free(Step(s, UnknownFires(s.bus.owner[k])).cards, k, false)
              && Free(Step(s, ResultLine(Web(s.bus.owner[k]), r)).cards, k, Drops(r))
  {
    var id := s.bus.owner[k];
    assert Pending(s.cards, k);
    if id in s.bus.inflight.at {
      TimeoutRemembers(s, k);
    } else if id in s.bus.answered.at {
      ResumeFrees(s, k);
    } else {
      LateResultFrees(s, k, r);
      UnknownTimerFrees(s, k);
    }
    KnownAt(s.bus, id);
  }

  lemma NotOwnedSettles(b: Bus, c: Cards, key: Option<Key>, id: nat, r: CoreResult)
    requires !Owns(b, key, id)
    ensures SettleKey(b, c, key, id, r).1 == c
  {}

  lemma TombstoneOwners(b: Bus, id: nat, key: Option<Key>, maxUnknown: nat, x: nat)
    requires b.expired.Valid() && !Owns(b, key, x)
    ensures !Owns(Tombstone(b, id, key, maxUnknown), key, x)
  {}

  lemma TimeoutsChangeNoCard(s: Sys, id: nat, r: CoreResult)
    requires Inv(s)
    ensures Step(s, TimeoutFires(id)).cards == s.cards
    ensures id in s.bus.inflight.at ==> Step(s, ResultLine(Web(id), r)).cards == s.cards
  {
    hide RememberUnknown;
  }

  lemma SupersededResult(s: Sys, id: nat, r: CoreResult)
    requires Inv(s) && id in Known(s.bus) && !Owns(s.bus, Known(s.bus)[id], id)
    ensures Step(s, ResultLine(Web(id), r)).cards == s.cards
  {
    hide CardInv, OneReply, SettleKey;
    KnownAt(s.bus, id);
    var key := Known(s.bus)[id];
    if id in s.bus.inflight.at || id in s.bus.answered.at {
    } else if id in s.bus.unknown.at {
      NotOwnedSettles(s.bus.(unknown := s.bus.unknown.Remove(id)), s.cards, key, id, r);
    } else {
      NotOwnedSettles(s.bus.(expired := s.bus.expired.Remove(id)), s.cards, key, id, r);
    }
  }

  lemma SupersededEnd(s: Sys, id: nat)
    requires Inv(s) && id in Known(s.bus) && !Owns(s.bus, Known(s.bus)[id], id)
    ensures Step(s, Resumes(id)).cards == s.cards && Step(s, UnknownFires(id)).cards == s.cards
  {
    hide CardInv, OneReply, SettleKey, Tombstone;
    KnownAt(s.bus, id);
    var key := Known(s.bus)[id];
    if id in s.bus.answered.at {
      NotOwnedSettles(s.bus.(answered := s.bus.answered.Remove(id)), s.cards, key, id, s.bus.answered.at[id].result);
    } else if id in s.bus.unknown.at {
      TombstoneOwners(s.bus.(unknown := s.bus.unknown.Remove(id)), id, key, s.maxUnknown, id);
    }
  }

  /** A command that does not own its key changes no card, whatever becomes of it; a timeout,
      or the arrival of a result that somebody waits for, never does. */
  lemma SupersededChangesNoCard(s: Sys, id: nat, r: CoreResult)
    requires Inv(s)
    ensures Step(s, TimeoutFires(id)).cards == s.cards
    ensures id in s.bus.inflight.at ==> Step(s, ResultLine(Web(id), r)).cards == s.cards
    ensures id in Known(s.bus) && !Owns(s.bus, Known(s.bus)[id], id) ==>
              && Step(s, ResultLine(Web(id), r)).cards == s.cards
              && Step(s, Resumes(id)).cards == s.cards
              && Step(s, UnknownFires(id)).cards == s.cards
  {
    hide Inv, Step;
    TimeoutsChangeNoCard(s, id, r);
    if id in Known(s.bus) && !Owns(s.bus, Known(s.bus)[id], id) {
      SupersededResult(s, id, r);
      SupersededEnd(s, id);
    }
  }
}
