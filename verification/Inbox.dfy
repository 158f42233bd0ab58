/** The message server in memory: threads, the message log and one queue per participant
    (src/agent_augury/core/server.py:209-286, 313-624). */
module Inbox {
  import opened Tables

  type Id = string

  /** `_approval`, or a thread's number. */
  datatype Topic = Notice | Thread_(n: nat)

  datatype Thread = Thread(name: string, participants: seq<Id>)

  datatype Message = Message(id: nat, topic: Topic, author: Id, content: string, mentions: seq<Id>,
                             delivered: seq<Id>, place: nat)

  datatype Server = Server(agents: set<Id>, humans: set<Id>, threads: Table<nat, Thread>, messages: seq<Message>,
                           index: map<nat, Message>, inboxes: map<Id, seq<nat>>, nextThread: nat, nextMessage: nat)

  const NEW_SERVER := Server({}, {}, Empty(), [], map[], map[], 1, 1)

  datatype Error = ReservedName | NotHuman | NoThread | UnknownAuthor | NotParticipant | NoInbox

  datatype Result = Ok(id: nat) | Err(error: Error)

  function LowerChar(c: char): char {
    if 'A' <= c <= 'Z' then c - 'A' + 'a' else c
  }

  /** `id.lower() == "human"`. */
  predicate IsHumanName(id: Id) {
    |id| == 5 && forall i :: 0 <= i < 5 ==> LowerChar(id[i]) == "human"[i]
  }

  // ---- Registration and order ----------------------------------------------------------------------

  function Register(s: Server, id: Id): (Server, bool) {
    if IsHumanName(id) || id in s.humans then (s, false)
    else if id in s.agents then (s, true)
    else (s.(agents := s.agents + {id}, inboxes := s.inboxes[id := []]), true)
  }

  /** Registered one after the other, up to the first that is refused. */
  function RegisterAll(s: Server, ids: seq<Id>): (Server, bool)
    decreases |ids|
  {
    if ids == [] then (s, true)
    else
      var (before, ok) := RegisterAll(s, ids[..|ids| - 1]);
      if ok then Register(before, ids[|ids| - 1]) else (before, false)
  }

  function RegisterHuman(s: Server, id: Id): (Server, bool) {
    if !IsHumanName(id) then (s, false)
    else (s.(humans := s.humans + {id}, inboxes := if id in s.inboxes then s.inboxes else s.inboxes[id := []]), true)
  }

  /** `a < b` on Python strings. */
  predicate Before(a: Id, b: Id) {
    if b == "" then false
    else if a == "" then true
    else if a[0] != b[0] then a[0] < b[0]
    else Before(a[1..], b[1..])
  }

  function InsertNew(x: Id, s: seq<Id>): seq<Id> {
    if s == [] || Before(x, s[0]) then [x] + s
    else if x == s[0] then s
    else [s[0]] + InsertNew(x, s[1..])
  }

  /** `sorted(set(ids))`. */
  function SortedSet(ids: seq<Id>): seq<Id> {
    if ids == [] then [] else InsertNew(ids[0], SortedSet(ids[1..]))
  }

  /** The ids that are not in `others`. */
  function NotIn(ids: seq<Id>, others: seq<Id>): (r: seq<Id>)
    ensures forall x :: x in r <==> x in ids && x !in others
  {
    if ids == [] then [] else (if ids[0] in others then [] else [ids[0]]) + NotIn(ids[1..], others)
  }

  // ---- Threads ------------------------------------------------------------------------------------------

  function ByName(order: seq<nat>, at: map<nat, Thread>, name: string): Option<nat> {
    if order == [] then None
    else if order[0] in at && at[order[0]].name == name then Some(order[0])
    else ByName(order[1..], at, name)
  }

  function CreateThread(s: Server, name: string, participants: seq<Id>, bootstrap: bool): (Server, Result) {
    match ByName(s.threads.order, s.threads.at, name)
    case Some(t) =>
      var existing := if t in s.threads.at then s.threads.at[t].participants else [];
      var added := SortedSet(NotIn(participants, existing));
      if added == [] || !bootstrap then (s, Ok(t))
      else
        var (s1, ok) := RegisterAll(s, added);
        if !ok then (s1, Err(ReservedName))
        else (s1.(threads := s1.threads.Put(t, Thread(name, SortedSet(existing + participants)))), Ok(t))
    case None =>
      var (s1, ok) := RegisterAll(s, participants);
      if !ok then (s1, Err(ReservedName))
      else
        var t := s1.nextThread;
        (s1.(threads := s1.threads.Put(t, Thread(name, participants)), nextThread := t + 1), Ok(t))
  }

  // ---- Messages ------------------------------------------------------------------------------------------

  function Among(participants: seq<Id>, mentions: seq<Id>): (r: seq<Id>)
    ensures forall x :: x in r <==> x in participants && x in mentions
  {
    if participants == [] then []
    else (if participants[0] in mentions then [participants[0]] else []) + Among(participants[1..], mentions)
  }

  /** Mentioned humans that are not targets yet, appended in order. */
  function WithHumans(targets: seq<Id>, humans: set<Id>, mentions: seq<Id>): seq<Id>
    decreases |mentions|
  {
    if mentions == [] then targets
    else
      var before := WithHumans(targets, humans, mentions[..|mentions| - 1]);
      var m := mentions[|mentions| - 1];
      if m in humans && m !in before then before + [m] else before
  }

  function Targets(s: Server, participants: seq<Id>, author: Id, mentions: seq<Id>): seq<Id> {
    if mentions != [] then WithHumans(Among(participants, mentions), s.humans, mentions)
    else Without(participants, author)
  }

  function HumanTargets(participants: seq<Id>, mentions: seq<Id>): seq<Id> {
    if mentions != [] then Among(participants, mentions) else participants
  }

  /** `put_nowait(id)` on each target's queue. */
  function PushAll(inboxes: map<Id, seq<nat>>, targets: seq<Id>, id: nat): map<Id, seq<nat>>
    decreases |targets|
  {
    if targets == [] then inboxes
    else
      var before := PushAll(inboxes, targets[..|targets| - 1], id);
      var t := targets[|targets| - 1];
      if t in before then before[t := before[t] + [id]] else before
  }

  function Post(s: Server, topic: Topic, author: Id, content: string, mentions: seq<Id>, targets: seq<Id>)
    : (Server, Result)
  {
    var m := Message(s.nextMessage, topic, author, content, mentions, targets, |s.messages|);
    (s.(messages := s.messages + [m], index := s.index[m.id := m],
        inboxes := PushAll(s.inboxes, targets, m.id), nextMessage := s.nextMessage + 1), Ok(m.id))
  }

  function SendMessage(s: Server, thread: nat, author: Id, content: string, mentions: seq<Id>): (Server, Result) {
    if thread !in s.threads.at then (s, Err(NoThread))
    else if author !in s.agents then (s, Err(UnknownAuthor))
    else
      var participants := s.threads.at[thread].participants;
      if author !in participants then (s, Err(NotParticipant))
      else Post(s, Thread_(thread), author, content, mentions, Targets(s, participants, author, mentions))
  }

  function HumanSend(s: Server, thread: nat, author: Id, content: string, mentions: seq<Id>): (Server, Result) {
    if thread !in s.threads.at then (s, Err(NoThread))
    else if author !in s.humans then (s, Err(UnknownAuthor))
    else Post(s, Thread_(thread), author, content, mentions, HumanTargets(s.threads.at[thread].participants, mentions))
  }

  function InjectNotice(s: Server, agent: Id, author: Id, content: string): (Server, Result) {
    if agent !in s.agents && agent !in s.humans then (s, Err(NoInbox))
    else Post(s, Notice, author, content, [agent], [agent])
  }

  // ---- Queues ----------------------------------------------------------------------------------------------

  predicate Dropped(index: map<nat, Message>, topics: set<Topic>, id: nat) {
    id in index && index[id].topic in topics
  }

  /** The ids that are kept, or else those that are dropped. */
  function Sift(q: seq<nat>, index: map<nat, Message>, topics: set<Topic>, drop: bool): (r: seq<nat>)
    ensures forall x :: x in r <==> x in q && Dropped(index, topics, x) == drop
    decreases |q|
  {
    if q == [] then []
    else
      var last := q[|q| - 1];
      Sift(q[..|q| - 1], index, topics, drop) + if Dropped(index, topics, last) == drop then [last] else []
  }

  lemma {:induction false} NothingDropped(q: seq<nat>, index: map<nat, Message>)
    ensures Sift(q, index, {}, false) == q
    decreases |q|
  {
    hide Dropped, Sift;
    if q == [] {
      SiftNone(index, {}, false);
    } else {
      var front, last := q[..|q| - 1], q[|q| - 1];
      NothingDropped(front, index);
      NoTopicDrops(index, last);
      SiftLast(front, last, index, {}, false);
      assert q == front + [last];
    }
  }

  lemma SiftNone(index: map<nat, Message>, topics: set<Topic>, drop: bool)
    ensures Sift([], index, topics, drop) == []
  {}

  lemma SiftLast(front: seq<nat>, last: nat, index: map<nat, Message>, topics: set<Topic>, drop: bool)
    ensures Sift(front + [last], index, topics, drop)
            == Sift(front, index, topics, drop) + if Dropped(index, topics, last) == drop then [last] else []
  {
    hide Dropped;
    assert (front + [last])[..|front|] == front;
  }

  lemma NoTopicDrops(index: map<nat, Message>, id: nat)
    ensures !Dropped(index, {}, id)
  {}

  function DropFrom(s: Server, agent: Id, topics: set<Topic>): Server {
    if agent !in s.inboxes then s
    else s.(inboxes := s.inboxes[agent := Sift(s.inboxes[agent], s.index, topics, false)])
  }

  function DropAll(s: Server, agents: seq<Id>, topics: set<Topic>): Server
    decreases |agents|
  {
    if agents == [] then s else DropFrom(DropAll(s, agents[..|agents| - 1], topics), agents[|agents| - 1], topics)
  }

  function SetParticipants(s: Server, thread: nat, ids: seq<Id>): (Server, Result) {
    if thread !in s.threads.at then (s, Err(NoThread))
    else
      var old_ := s.threads.at[thread].participants;
      var (s1, ok) := RegisterAll(s, SortedSet(NotIn(ids, old_)));
      if !ok then (s1, Err(ReservedName))
      else
        var s2 := DropAll(s1, SortedSet(NotIn(old_, ids)), {Thread_(thread)});
        (s2.(threads := s2.threads.Put(thread, Thread(s.threads.at[thread].name, ids))), Ok(thread))
  }

  function Known(q: seq<nat>, index: map<nat, Message>): seq<nat>
    decreases |q|
  {
    if q == [] then [] else Known(q[..|q| - 1], index) + if q[|q| - 1] in index then [q[|q| - 1]] else []
  }

  function Emptied(s: Server, agent: Id): Server {
    if agent in s.inboxes then s.(inboxes := s.inboxes[agent := []]) else s
  }

  /** `restore_inbox_ids`. */
  function Restore(s: Server, saved: map<Id, seq<nat>>): Server {
    s.(inboxes := map a | a in s.inboxes :: if a in saved then Known(saved[a], s.index) else s.inboxes[a])
  }

  // ---- Runs -----------------------------------------------------------------------------------------------

  datatype Event =
    | Registers(id: Id)
    | RegistersHuman(id: Id)
    | Creates(name: string, participants: seq<Id>, bootstrap: bool)
    | Sends(thread: nat, author: Id, content: string, mentions: seq<Id>)
    | HumanSends(thread: nat, author: Id, content: string, mentions: seq<Id>)
    | Injects(agent: Id, author: Id, content: string)
    | Drains(agent: Id)
    | Drops(agent: Id, topics: set<Topic>)
    | Sets(thread: nat, participants: seq<Id>)
    | Restores(saved: map<Id, seq<nat>>)

  function Step(s: Server, e: Event): Server {
    match e
    case Registers(id) => Register(s, id).0
    case RegistersHuman(id) => RegisterHuman(s, id).0
    case Creates(name, participants, bootstrap) => CreateThread(s, name, participants, bootstrap).0
    case Sends(thread, author, content, mentions) => SendMessage(s, thread, author, content, mentions).0
    case HumanSends(thread, author, content, mentions) => HumanSend(s, thread, author, content, mentions).0
    case Injects(agent, author, content) => InjectNotice(s, agent, author, content).0
    case Drains(agent) => Emptied(s, agent)
    case Drops(agent, topics) => DropFrom(s, agent, topics)
    case Sets(thread, participants) => SetParticipants(s, thread, participants).0
    case Restores(saved) => Restore(s, saved)
  }

  /** An in-order part of a queue. */
  ghost predicate PartOf(part: seq<nat>, q: seq<nat>) {
    Increasing(part) && forall id :: id in part ==> id in q
  }

  /** Of each queue the saved ids are an in-order part of what waits. */
  ghost predicate Restorable(s: Server, saved: map<Id, seq<nat>>) {
    forall a :: a in saved && a in s.inboxes ==> PartOf(Known(saved[a], s.index), s.inboxes[a])
  }

  /** The lists of participants that callers pass name nobody twice, and what they restore waits. */
  ghost predicate Proper(s: Server, e: Event) {
    && (e.Creates? || e.Sets? ==> Distinct(e.participants))
    && (e.Restores? ==> Restorable(s, e.saved))
  }

  /** The ids of q that are not kept. */
  function Missing(q: seq<nat>, kept: seq<nat>): seq<nat>
    decreases |q|
  {
    if q == [] then []
    else
      var last := q[|q| - 1];
      Missing(q[..|q| - 1], kept) + if last in kept then [] else [last]
  }

  /** The server, and for each queue what was taken from it and what was dropped from it, in
      order. No step reads the last two. */
  datatype Sys = Sys(server: Server, taken: map<Id, seq<nat>>, lost: map<Id, seq<nat>>)

  function At(m: map<Id, seq<nat>>, a: Id): seq<nat> {
    if a in m then m[a] else []
  }

  function TakenBy(s: Server, e: Event, a: Id): seq<nat> {
    if e.Drains? && e.agent == a then At(s.inboxes, a) else []
  }

  function LostBy(s: Server, e: Event, a: Id): seq<nat> {
    match e
    case Drops(agent, topics) => if a == agent then Sift(At(s.inboxes, a), s.index, topics, true) else []
    case Sets(thread, ids) =>
      if SetParticipants(s, thread, ids).1.Ok? && a in s.threads.at[thread].participants && a !in ids
      then Sift(At(s.inboxes, a), s.index, {Thread_(thread)}, true)
      else []
    case Restores(saved) => if a in saved then Missing(At(s.inboxes, a), Known(saved[a], s.index)) else []
    case _ => []
  }

  function Advance(s: Sys, e: Event): Sys {
    var next := Step(s.server, e);
    Sys(next,
        map a | a in next.inboxes :: At(s.taken, a) + TakenBy(s.server, e, a),
        map a | a in next.inboxes :: At(s.lost, a) + LostBy(s.server, e, a))
  }

  function Run(es: seq<Event>): Sys
    decreases |es|
  {
    if es == [] then Sys(NEW_SERVER, map[], map[]) else Advance(Run(es[..|es| - 1]), es[|es| - 1])
  }

  // ---- The invariant ----------------------------------------------------------------------------------------

  ghost predicate Logged(s: Server) {
    && s.nextMessage == |s.messages| + 1
    && (forall k :: 0 <= k < |s.messages| ==> s.messages[k].id == k + 1 && s.messages[k].place == k)
    && (forall id :: id in s.index <==> 1 <= id <= |s.messages|)
    && (forall id :: id in s.index ==> s.index[id] == s.messages[id - 1])
    && (forall k, a :: 0 <= k < |s.messages| && a in s.messages[k].delivered ==> a in s.inboxes)
  }

  ghost predicate Owned(s: Server) {
    && (forall a :: a in s.inboxes <==> a in s.agents || a in s.humans)
    && (forall a :: a in s.agents ==> !IsHumanName(a))
    && (forall a :: a in s.humans ==> IsHumanName(a))
  }

  ghost predicate Threaded(s: Server) {
    && s.threads.Valid()
    && (forall t :: t in s.threads.at ==> t < s.nextThread)
    && (forall t, u :: t in s.threads.at && u in s.threads.at && s.threads.at[t].name == s.threads.at[u].name
         ==> t == u)
    && (forall t, a :: t in s.threads.at && a in s.threads.at[t].participants ==> a in s.agents)
    && (forall t :: t in s.threads.at ==> Distinct(s.threads.at[t].participants))
  }

  ghost predicate Sound(s: Server) {
    Logged(s) && Owned(s) && Threaded(s)
  }

  ghost predicate Increasing(q: seq<nat>) {
    forall i, j :: 0 <= i < j < |q| ==> q[i] < q[j]
  }

  ghost predicate Delivered(s: Server, a: Id, id: nat) {
    1 <= id <= |s.messages| && a in s.messages[id - 1].delivered
  }

  /** What was taken from a queue, and then what waits in it, are ids in increasing order; with what
      was dropped they are, each once, exactly the messages delivered to its owner. */
  ghost predicate Accounted(s: Server, a: Id, q: seq<nat>, taken: seq<nat>, lost: seq<nat>) {
    && Increasing(taken + q) && Distinct(lost)
    && (forall id :: id in lost ==> id !in taken && id !in q)
    && (forall id :: id in taken || id in lost || id in q <==> Delivered(s, a, id))
  }

  ghost predicate Inv(s: Sys) {
    && Sound(s.server)
    && (forall a :: a in s.server.inboxes
         ==> Accounted(s.server, a, s.server.inboxes[a], At(s.taken, a), At(s.lost, a)))
    && (forall a :: a !in s.server.inboxes ==> At(s.taken, a) == [] && At(s.lost, a) == [])
  }

  // ---- Sorted lists --------------------------------------------------------------------------------------------

  lemma {:induction false} BeforeTotal(a: Id, b: Id)
    ensures Before(a, b) || Before(b, a) || a == b
    ensures Before(a, b) ==> a != b && !Before(b, a)
    decreases |a|
  {
    if a != "" && b != "" && a[0] == b[0] {
      BeforeTotal(a[1..], b[1..]);
      assert a == [a[0]] + a[1..] && b == [b[0]] + b[1..];
    }
  }

  lemma {:induction false} BeforeTrans(a: Id, b: Id, c: Id)
    requires Before(a, b) && Before(b, c)
    ensures Before(a, c)
    decreases |a|
  {
    if a != "" && a[0] == b[0] == c[0] { BeforeTrans(a[1..], b[1..], c[1..]); }
  }

  ghost predicate Ascending(s: seq<Id>) {
    forall i, j :: 0 <= i < j < |s| ==> Before(s[i], s[j])
  }

  lemma {:induction false} InsertNewKeeps(x: Id, s: seq<Id>)
    requires Ascending(s)
    ensures Ascending(InsertNew(x, s)) && forall y :: y in InsertNew(x, s) <==> y == x || y in s
    decreases |s|
  {
    if s == [] {
    } else if Before(x, s[0]) {
      forall j | 0 < j < |s| ensures Before(x, s[j]) { BeforeTrans(x, s[0], s[j]); }
    } else if x != s[0] {
      assert forall i, j :: 0 <= i < j < |s[1..]| ==> s[1..][i] == s[i + 1] && s[1..][j] == s[j + 1];
      InsertNewKeeps(x, s[1..]);
      var r := InsertNew(x, s[1..]);
      BeforeTotal(x, s[0]);
      forall j | 0 <= j < |r| ensures Before(s[0], r[j]) {
        assert r[j] in r;
        if r[j] != x { var k :| 0 <= k < |s[1..]| && s[1..][k] == r[j]; assert s[k + 1] == r[j]; }
      }
      assert s == [s[0]] + s[1..];
    }
  }

  lemma {:induction false} SortedSetIs(ids: seq<Id>)
    ensures Ascending(SortedSet(ids)) && Distinct(SortedSet(ids))
    ensures forall x :: x in SortedSet(ids) <==> x in ids
    decreases |ids|
  {
    if ids != [] {
      SortedSetIs(ids[1..]);
      InsertNewKeeps(ids[0], SortedSet(ids[1..]));
      assert ids == [ids[0]] + ids[1..];
    }
    AscendingDistinct(SortedSet(ids));
  }

  lemma AscendingDistinct(s: seq<Id>)
    requires Ascending(s)
    ensures Distinct(s)
  {
    forall i, j | 0 <= i < j < |s| ensures s[i] != s[j] { BeforeTotal(s[i], s[j]); }
  }

  // ---- Registering keeps it ----------------------------------------------------------------------------------------

  /** Registering only adds agents, each with an empty queue. */
  ghost predicate Grown(s: Server, s': Server) {
    && s' == s.(agents := s'.agents, inboxes := s'.inboxes)
    && s.agents <= s'.agents
    && (forall a :: a in s.inboxes ==> a in s'.inboxes && s'.inboxes[a] == s.inboxes[a])
    && (forall a :: a in s'.inboxes && a !in s.inboxes ==> s'.inboxes[a] == [])
  }

  lemma RegisterGrows(s: Server, id: Id)
    requires Sound(s)
    ensures var (s', ok) := Register(s, id);
            Grown(s, s') && Sound(s') && (ok ==> id in s'.agents) && (!ok ==> IsHumanName(id))
  {}

  lemma {:induction false} RegisterAllGrows(s: Server, ids: seq<Id>)
    requires Sound(s)
    ensures var (s', ok) := RegisterAll(s, ids);
            && Grown(s, s') && Sound(s')
            && (ok ==> forall x :: x in ids ==> x in s'.agents)
            && (!ok ==> exists x :: x in ids && IsHumanName(x))
    decreases |ids|
  {
    hide Sound;
    if ids != [] {
      var front, last := ids[..|ids| - 1], ids[|ids| - 1];
      assert ids == front + [last];
      RegisterAllGrows(s, front);
      var (s1, ok) := RegisterAll(s, front);
      if ok { RegisterGrows(s1, last); }
    }
  }

  // ---- Posting keeps it -------------------------------------------------------------------------------------------

  lemma {:induction false} PushAllAt(inboxes: map<Id, seq<nat>>, targets: seq<Id>, id: nat, a: Id)
    requires Distinct(targets) && a in inboxes
    ensures var r := PushAll(inboxes, targets, id);
            r.Keys == inboxes.Keys && r[a] == inboxes[a] + if a in targets then [id] else []
    decreases |targets|
  {
    if targets != [] {
      var front, last := targets[..|targets| - 1], targets[|targets| - 1];
      assert targets == front + [last];
      assert forall i :: 0 <= i < |front| ==> front[i] == targets[i];
      PushAllAt(inboxes, front, id, a);
    }
  }

  lemma {:induction false} PushAllKeys(inboxes: map<Id, seq<nat>>, targets: seq<Id>, id: nat)
    ensures PushAll(inboxes, targets, id).Keys == inboxes.Keys
    decreases |targets|
  {
    if targets != [] { PushAllKeys(inboxes, targets[..|targets| - 1], id); }
  }

  /** Each target gets the new message once, at the end of its queue; nobody else gets it. */
  lemma PostAccounts(s: Server, s': Server, topic: Topic, author: Id, content: string, mentions: seq<Id>,
                     targets: seq<Id>,
                     a: Id, taken: seq<nat>, lost: seq<nat>)
    requires Logged(s) && Distinct(targets) && a in s.inboxes && Accounted(s, a, s.inboxes[a], taken, lost)
    requires s' == Post(s, topic, author, content, mentions, targets).0
    ensures a in s'.inboxes && s'.inboxes[a] == s.inboxes[a] + if a in targets then [s.nextMessage] else []
    ensures Accounted(s', a, s'.inboxes[a], taken, lost)
  {
    var id, q := s.nextMessage, s.inboxes[a];
    PushAllAt(s.inboxes, targets, id, a);
    LogGrows(s, s', a, id, targets);
    if a in targets {
      var q' := q + [id];
      assert taken + q' == (taken + q) + [id];
      forall x | x in taken + q ensures x < id { assert Delivered(s, a, x); }
      assert forall i :: 0 <= i < |taken + q| ==> (taken + q)[i] in taken + q;
      assert forall x :: x in lost ==> Delivered(s, a, x);
    } else {
      assert s'.inboxes[a] == q;
    }
  }

  lemma LogGrows(s: Server, s': Server, a: Id, id: nat, targets: seq<Id>)
    requires id == |s.messages| + 1 && |s'.messages| == |s.messages| + 1 && s'.messages[..|s.messages|] == s.messages
    requires s'.messages[|s.messages|].delivered == targets
    ensures forall x :: Delivered(s', a, x) <==> Delivered(s, a, x) || (x == id && a in targets)
  {
    forall x: nat ensures Delivered(s', a, x) <==> Delivered(s, a, x) || (x == id && a in targets) {
      if 1 <= x <= |s.messages| { assert s'.messages[x - 1] == s'.messages[..|s.messages|][x - 1]; }
    }
  }

  lemma PostSound(s: Server, topic: Topic, author: Id, content: string, mentions: seq<Id>, targets: seq<Id>)
    requires Sound(s) && forall t :: t in targets ==> t in s.inboxes
    ensures Sound(Post(s, topic, author, content, mentions, targets).0)
  {
    PushAllKeys(s.inboxes, targets, s.nextMessage);
  }

  lemma {:induction false} AmongDistinct(participants: seq<Id>, mentions: seq<Id>)
    requires Distinct(participants)
    ensures Distinct(Among(participants, mentions))
    decreases |participants|
  {
    if participants != [] {
      assert forall i, j :: 0 <= i < j < |participants[1..]| ==>
               participants[1..][i] == participants[i + 1] && participants[1..][j] == participants[j + 1];
      AmongDistinct(participants[1..], mentions);
      assert participants[0] !in participants[1..];
    }
  }

  lemma {:induction false} WithHumansIs(targets: seq<Id>, humans: set<Id>, mentions: seq<Id>)
    requires Distinct(targets)
    ensures var r := WithHumans(targets, humans, mentions);
            Distinct(r) && forall x :: x in r <==> x in targets || (x in humans && x in mentions)
    decreases |mentions|
  {
    if mentions != [] {
      var front, last := mentions[..|mentions| - 1], mentions[|mentions| - 1];
      assert mentions == front + [last];
      WithHumansIs(targets, humans, front);
    }
  }

  /** Who gets an agent's message: the participants it mentions and the humans it mentions, or, when
      it mentions nobody, all participants but itself; nobody twice. */
  lemma TargetsAre(s: Server, participants: seq<Id>, author: Id, mentions: seq<Id>)
    requires Distinct(participants)
    ensures var r := Targets(s, participants, author, mentions);
            && Distinct(r)
            && forall x :: x in r <==>
                 if mentions == [] then x in participants && x != author
                 else x in mentions && (x in participants || x in s.humans)
  {
    if mentions == [] {
      WithoutKeepsDistinct(participants, author);
    } else {
      AmongDistinct(participants, mentions);
      WithHumansIs(Among(participants, mentions), s.humans, mentions);
    }
  }

  lemma PostKeeps(s: Sys, e: Event, topic: Topic, author: Id, content: string, mentions: seq<Id>, targets: seq<Id>)
    requires Inv(s) && Distinct(targets) && (forall t :: t in targets ==> t in s.server.inboxes)
    requires e.Sends? || e.HumanSends? || e.Injects?
    requires Step(s.server, e) == Post(s.server, topic, author, content, mentions, targets).0
    ensures Inv(Advance(s, e))
  {
    hide Sound, Accounted, Post, Step;
    var next := Step(s.server, e);
    PostSound(s.server, topic, author, content, mentions, targets);
    PostOwners(s.server, topic, author, content, mentions, targets);
    forall a | a in next.inboxes
      ensures Accounted(next, a, next.inboxes[a], At(s.taken, a) + TakenBy(s.server, e, a),
                        At(s.lost, a) + LostBy(s.server, e, a))
    {
      SoundIsLogged(s.server);
      PostAccounts(s.server, next, topic, author, content, mentions, targets, a, At(s.taken, a), At(s.lost, a));
      Unchanged(At(s.taken, a), At(s.lost, a));
    }
    AdvanceFits(s, e);
  }

  lemma SoundIsLogged(s: Server)
    requires Sound(s)
    ensures Logged(s)
  {}

  lemma PostOwners(s: Server, topic: Topic, author: Id, content: string, mentions: seq<Id>, targets: seq<Id>)
    ensures Post(s, topic, author, content, mentions, targets).0.inboxes.Keys == s.inboxes.Keys
  {
    PushAllKeys(s.inboxes, targets, s.nextMessage);
  }

  /** What is left to show when the server itself is sound after a step. */
  lemma AdvanceFits(s: Sys, e: Event)
    requires Inv(s) && Sound(Step(s.server, e))
    requires forall a :: a in Step(s.server, e).inboxes ==>
      Accounted(Step(s.server, e), a, Step(s.server, e).inboxes[a], At(s.taken, a) + TakenBy(s.server, e, a),
                At(s.lost, a) + LostBy(s.server, e, a))
    ensures Inv(Advance(s, e))
  {
    hide Sound, Accounted, Step, TakenBy, LostBy;
    var s' := Advance(s, e);
    assert forall a :: a in s'.server.inboxes ==>
      At(s'.taken, a) == At(s.taken, a) + TakenBy(s.server, e, a)
          && At(s'.lost, a) == At(s.lost, a) + LostBy(s.server, e, a);
  }

  lemma Unchanged(taken: seq<nat>, lost: seq<nat>)
    ensures taken + [] == taken && lost + [] == lost
  {}

  // ---- Taking and dropping keep it --------------------------------------------------------------------------------

  lemma {:induction false} SiftIncreasing(q: seq<nat>, index: map<nat, Message>, topics: set<Topic>, drop: bool)
    requires Increasing(q)
    ensures Increasing(Sift(q, index, topics, drop))
    decreases |q|
  {
    if q != [] {
      var front, last := q[..|q| - 1], q[|q| - 1];
      assert forall i :: 0 <= i < |front| ==> front[i] == q[i];
      SiftIncreasing(front, index, topics, drop);
      var r := Sift(front, index, topics, drop);
      forall i | 0 <= i < |r| ensures r[i] < last {
        assert r[i] in r && r[i] in front;
      }
    }
  }

  lemma IncreasingParts(a: seq<nat>, b: seq<nat>)
    ensures Increasing(a + b) <==> Increasing(a) && Increasing(b) && (forall x, y :: x in a && y in b ==> x < y)
  {
    if Increasing(a + b) {
      assert forall i :: 0 <= i < |a| ==> (a + b)[i] == a[i];
      assert forall j :: 0 <= j < |b| ==> (a + b)[|a| + j] == b[j];
    }
    if Increasing(a) && Increasing(b) && (forall x, y :: x in a && y in b ==> x < y) {
      forall i, j | 0 <= i < j < |a + b| ensures (a + b)[i] < (a + b)[j] {
        if i < |a| <= j { assert a[i] in a && b[j - |a|] in b; }
      }
    }
  }

  lemma IncreasingDistinct(q: seq<nat>)
    requires Increasing(q)
    ensures Distinct(q)
  {}

  lemma DistinctParts(a: seq<nat>, b: seq<nat>)
    requires Distinct(a) && Distinct(b) && forall x :: x in a ==> x !in b
    ensures Distinct(a + b)
  {
    forall i, j | 0 <= i < j < |a + b| ensures (a + b)[i] != (a + b)[j] {
      if i < |a| <= j { assert a[i] in a && b[j - |a|] in b; }
    }
  }

  lemma DropAccounts(s: Server, s': Server, a: Id, topics: set<Topic>, q: seq<nat>, taken: seq<nat>, lost: seq<nat>)
    requires Accounted(s, a, q, taken, lost) && s'.messages == s.messages
    ensures Accounted(s', a, Sift(q, s.index, topics, false), taken, lost + Sift(q, s.index, topics, true))
  {
    var kept, gone := Sift(q, s.index, topics, false), Sift(q, s.index, topics, true);
    IncreasingParts(taken, q);
    SiftIncreasing(q, s.index, topics, false);
    SiftIncreasing(q, s.index, topics, true);
    IncreasingParts(taken, kept);
    IncreasingDistinct(gone);
    DistinctParts(lost, gone);
    assert forall id :: id in gone ==> id in q;
    assert forall id :: id in taken ==> id !in q by { forall id | id in taken ensures id !in q {} }
    assert forall id :: Delivered(s', a, id) <==> Delivered(s, a, id);
  }

  lemma TakeAccounts(s: Server, s': Server, a: Id, q: seq<nat>, taken: seq<nat>, lost: seq<nat>)
    requires Accounted(s, a, q, taken, lost) && s'.messages == s.messages
    ensures Accounted(s', a, [], taken + q, lost)
  {
    assert (taken + q) + [] == taken + q;
    assert forall id :: Delivered(s', a, id) <==> Delivered(s, a, id);
  }

  lemma QueueStays(s: Server, s': Server, a: Id, q: seq<nat>, taken: seq<nat>, lost: seq<nat>)
    requires Accounted(s, a, q, taken, lost) && s'.messages == s.messages
    ensures Accounted(s', a, q, taken + [], lost + [])
  {
    Unchanged(taken, lost);
    assert forall id :: Delivered(s', a, id) <==> Delivered(s, a, id);
  }

  lemma DropOnly(s: Server, agent: Id, topics: set<Topic>)
    ensures var s' := DropFrom(s, agent, topics);
            && s' == s.(inboxes := s'.inboxes) && s'.inboxes.Keys == s.inboxes.Keys
            && forall a :: a in s.inboxes ==>
                 s'.inboxes[a] == if a == agent then Sift(s.inboxes[a], s.index, topics, false) else s.inboxes[a]
  {}

  lemma {:induction false} DropAllOnly(s: Server, agents: seq<Id>, topics: set<Topic>)
    requires Distinct(agents)
    ensures var s' := DropAll(s, agents, topics);
            && s' == s.(inboxes := s'.inboxes) && s'.inboxes.Keys == s.inboxes.Keys
            && forall a :: a in s.inboxes ==>
                 s'.inboxes[a] == if a in agents then Sift(s.inboxes[a], s.index, topics, false) else s.inboxes[a]
    decreases |agents|
  {
    if agents != [] {
      var front, last := agents[..|agents| - 1], agents[|agents| - 1];
      assert agents == front + [last] && forall i :: 0 <= i < |front| ==> front[i] == agents[i];
      DropAllOnly(s, front, topics);
      DropOnly(DropAll(s, front, topics), last, topics);
      assert last !in front;
    }
  }

  // ---- Every step keeps it ----------------------------------------------------------------------------------------

  lemma RegistersKeep(s: Sys, e: Event)
    requires Inv(s) && (e.Registers? || e.RegistersHuman?)
    ensures Inv(Advance(s, e))
  {
    hide Accounted, Sound, Register, RegisterHuman;
    if e.Registers? { RegisterGrows(s.server, e.id); } else { HumanGrows(s.server, e.id); }
    GrownKeeps(s, e);
  }

  lemma HumanGrows(s: Server, id: Id)
    requires Sound(s)
    ensures var s' := RegisterHuman(s, id).0;
            && Sound(s') && s'.messages == s.messages
            && (forall a :: a in s.inboxes ==> a in s'.inboxes && s'.inboxes[a] == s.inboxes[a])
            && (forall a :: a in s'.inboxes && a !in s.inboxes ==> s'.inboxes[a] == [])
  {}

  /** A step that only adds owners, or changes threads as well. */
  lemma GrownKeeps(s: Sys, e: Event)
    requires Inv(s) && Sound(Step(s.server, e))
    requires var next := Step(s.server, e);
             && next.messages == s.server.messages
             && (forall a :: a in s.server.inboxes ==> a in next.inboxes && next.inboxes[a] == s.server.inboxes[a])
             && (forall a :: a in next.inboxes && a !in s.server.inboxes ==> next.inboxes[a] == [])
    requires forall a :: TakenBy(s.server, e, a) == [] && LostBy(s.server, e, a) == []
    ensures Inv(Advance(s, e))
  {
    hide Accounted, Sound, Step;
    var next := Step(s.server, e);
    forall a | a in next.inboxes
      ensures Accounted(next, a, next.inboxes[a], At(s.taken, a) + TakenBy(s.server, e, a),
                        At(s.lost, a) + LostBy(s.server, e, a))
    {
      if a in s.server.inboxes {
        QueueStays(s.server, next, a, s.server.inboxes[a], At(s.taken, a), At(s.lost, a));
      } else {
        NewQueue(s.server, next, a);
        Unchanged(At(s.taken, a), At(s.lost, a));
      }
    }
    AdvanceFits(s, e);
  }

  lemma NewQueue(s: Server, s': Server, a: Id)
    requires Sound(s) && a !in s.inboxes && s'.messages == s.messages
    ensures Accounted(s', a, [], [], [])
  {
    assert forall id :: !Delivered(s', a, id);
  }

  lemma {:induction false} ByNameIs(order: seq<nat>, at: map<nat, Thread>, name: string, t: nat)
    ensures var r := ByName(order, at, name);
            && (r.Some? ==> r.value in at && at[r.value].name == name)
            && (r.None? && t in order && t in at ==> at[t].name != name)
    decreases |order|
  {
    if order != [] { ByNameIs(order[1..], at, name, t); }
  }

  lemma PutThread(s: Server, t: nat, thread: Thread)
    requires Sound(s) && (t in s.threads.at || t == s.nextThread)
    requires Distinct(thread.participants) && forall a :: a in thread.participants ==> a in s.agents
    requires forall u :: u in s.threads.at && s.threads.at[u].name == thread.name ==> u == t
    ensures Sound(s.(threads := s.threads.Put(t, thread),
                     nextThread := if t == s.nextThread then t + 1 else s.nextThread))
  {
    ThreadedPut(s, t, thread, if t == s.nextThread then t + 1 else s.nextThread);
    hide Threaded;
  }

  lemma ThreadedPut(s: Server, t: nat, thread: Thread, next: nat)
    requires Threaded(s) && t < next && s.nextThread <= next
    requires Distinct(thread.participants) && forall a :: a in thread.participants ==> a in s.agents
    requires forall u :: u in s.threads.at && s.threads.at[u].name == thread.name ==> u == t
    ensures Threaded(s.(threads := s.threads.Put(t, thread), nextThread := next))
  {
    s.threads.PutValid(t, thread);
    var at := s.threads.Put(t, thread).at;
    assert at == s.threads.at[t := thread];
  }

  lemma CreatesSound(s: Server, name: string, participants: seq<Id>, bootstrap: bool)
    requires Sound(s) && Distinct(participants)
    ensures var (s', r) := CreateThread(s, name, participants, bootstrap);
            && Sound(s') && Grown(s, s'.(threads := s.threads, nextThread := s.nextThread))
  {
    hide Sound, Grown;
    GrownSelf(s);
    match ByName(s.threads.order, s.threads.at, name) {
      case Some(t) =>
        ByNameIs(s.threads.order, s.threads.at, name, t);
        var existing := s.threads.at[t].participants;
        var added := SortedSet(NotIn(participants, existing));
        RegisterAllGrows(s, added);
        SortedSetIs(NotIn(participants, existing));
        SortedSetIs(existing + participants);
        var (s1, ok) := RegisterAll(s, added);
        if ok { WidenSound(s, s1, t, name, SortedSet(existing + participants)); }
        SameThreads(s, s1);
      case None =>
        RegisterAllGrows(s, participants);
        var (s1, ok) := RegisterAll(s, participants);
        SameThreads(s, s1);
        forall u | u in s.threads.at ensures s.threads.at[u].name != name {
          ThreadOrder(s, u);
          ByNameIs(s.threads.order, s.threads.at, name, u);
        }
        if ok { PutThread(s1, s1.nextThread, Thread(name, participants)); }
    }
  }

  lemma ThreadOrder(s: Server, t: nat)
    requires Sound(s) && t in s.threads.at
    ensures t in s.threads.order
  {}

  lemma GrownSelf(s: Server)
    ensures Grown(s, s)
  {}

  lemma SameThreads(s: Server, s1: Server)
    requires Grown(s, s1)
    ensures s1.threads == s.threads && s1.nextThread == s.nextThread && s.agents <= s1.agents
    ensures s1.messages == s.messages && s1.index == s.index
  {}

  lemma WidenSound(s: Server, s1: Server, t: nat, name: string, participants: seq<Id>)
    requires Sound(s) && Sound(s1) && Grown(s, s1) && t in s.threads.at && s.threads.at[t].name == name
    requires Distinct(participants)
    requires forall a :: a in participants ==> a in s.threads.at[t].participants || a in s1.agents
    ensures Sound(s1.(threads := s1.threads.Put(t, Thread(name, participants))))
  {
    PutThread(s1, t, Thread(name, participants));
  }

  lemma CreatesKeep(s: Sys, e: Event)
    requires Inv(s) && e.Creates? && Distinct(e.participants)
    ensures Inv(Advance(s, e))
  {
    hide Accounted, Sound, CreateThread;
    CreatesSound(s.server, e.name, e.participants, e.bootstrap);
    var next := Step(s.server, e);
    GrownOnly(s.server, next.(threads := s.server.threads, nextThread := s.server.nextThread));
    GrownKeeps(s, e);
  }

  lemma GrownOnly(s: Server, s': Server)
    requires Grown(s, s')
    ensures s'.messages == s.messages
    ensures forall a :: a in s.inboxes ==> a in s'.inboxes && s'.inboxes[a] == s.inboxes[a]
    ensures forall a :: a in s'.inboxes && a !in s.inboxes ==> s'.inboxes[a] == []
  {}

  lemma ParticipantsOwnQueues(s: Server, t: nat)
    requires Sound(s) && t in s.threads.at
    ensures Distinct(s.threads.at[t].participants)
    ensures forall a :: a in s.threads.at[t].participants || a in s.humans ==> a in s.inboxes
  {}

  lemma PostsKeep(s: Sys, e: Event)
    requires Inv(s) && (e.Sends? || e.HumanSends? || e.Injects?)
    ensures Inv(Advance(s, e))
  {
    hide Accounted, Sound, Post, Advance;
    if Step(s.server, e) == s.server {
      StillKeeps(s, e);
    } else {
      match e {
        case Sends(t, author, content, mentions) =>
          var participants := s.server.threads.at[t].participants;
          ParticipantsOwnQueues(s.server, t);
          TargetsAre(s.server, participants, author, mentions);
          PostKeeps(s, e, Thread_(t), author, content, mentions, Targets(s.server, participants, author, mentions));
        case HumanSends(t, author, content, mentions) =>
          var participants := s.server.threads.at[t].participants;
          ParticipantsOwnQueues(s.server, t);
          AmongDistinct(participants, mentions);
          PostKeeps(s, e, Thread_(t), author, content, mentions, HumanTargets(participants, mentions));
        case Injects(agent, author, content) =>
          OwnersHaveQueues(s.server, agent);
          PostKeeps(s, e, Notice, author, content, [agent], [agent]);
      }
    }
  }

  lemma OwnersHaveQueues(s: Server, a: Id)
    requires Sound(s) && (a in s.agents || a in s.humans)
    ensures a in s.inboxes
  {}

  /** A step that changes nothing. */
  lemma StillKeeps(s: Sys, e: Event)
    requires Inv(s) && Step(s.server, e) == s.server
    requires forall a :: TakenBy(s.server, e, a) == [] && LostBy(s.server, e, a) == []
    ensures Inv(Advance(s, e))
  {
    hide Sound, Accounted, Step;
    GrownKeeps(s, e);
  }

  lemma QueuesSound(s: Server, s': Server)
    requires Sound(s) && s' == s.(inboxes := s'.inboxes) && s'.inboxes.Keys == s.inboxes.Keys
    ensures Sound(s')
  {
    assert forall a :: a in s'.inboxes <==> a in s.inboxes;
  }

  lemma DrainKeeps(s: Sys, e: Event)
    requires Inv(s) && e.Drains?
    ensures Inv(Advance(s, e))
  {
    hide Sound, Accounted;
    var next := Step(s.server, e);
    QueuesSound(s.server, next);
    forall a | a in next.inboxes
      ensures Accounted(next, a, next.inboxes[a], At(s.taken, a) + TakenBy(s.server, e, a),
                        At(s.lost, a) + LostBy(s.server, e, a))
    {
      var q := s.server.inboxes[a];
      if a == e.agent {
        TakeAccounts(s.server, next, a, q, At(s.taken, a), At(s.lost, a));
        Unchanged(At(s.taken, a), At(s.lost, a));
      } else {
        QueueStays(s.server, next, a, q, At(s.taken, a), At(s.lost, a));
      }
    }
    AdvanceFits(s, e);
  }

  lemma DropKeeps(s: Sys, e: Event)
    requires Inv(s) && e.Drops?
    ensures Inv(Advance(s, e))
  {
    hide Sound, Accounted, Sift;
    var next := Step(s.server, e);
    DropOnly(s.server, e.agent, e.topics);
    QueuesSound(s.server, next);
    forall a | a in next.inboxes
      ensures Accounted(next, a, next.inboxes[a], At(s.taken, a) + TakenBy(s.server, e, a),
                        At(s.lost, a) + LostBy(s.server, e, a))
    {
      var q := s.server.inboxes[a];
      if a == e.agent {
        DropAccounts(s.server, next, a, e.topics, q, At(s.taken, a), At(s.lost, a));
        Unchanged(At(s.taken, a), At(s.lost, a));
      } else {
        QueueStays(s.server, next, a, q, At(s.taken, a), At(s.lost, a));
      }
    }
    AdvanceFits(s, e);
  }

  function AfterSet(s: Server, t: nat, ids: seq<Id>, ok: bool, a: Id): seq<nat>
    requires a in s.inboxes && (ok ==> t in s.threads.at)
  {
    if ok && a in s.threads.at[t].participants && a !in ids then Sift(s.inboxes[a], s.index, {Thread_(t)}, false)
    else s.inboxes[a]
  }

  /** Replacing a thread's participants: new ones get a queue, removed ones lose what waits from
      this thread, and nothing else moves. */
  lemma SetsShape(s: Server, t: nat, ids: seq<Id>)
    requires Sound(s) && Distinct(ids)
    ensures var (s', r) := SetParticipants(s, t, ids);
            && Sound(s') && s'.messages == s.messages && s'.index == s.index
            && (r.Ok? ==> t in s.threads.at && s'.threads.at == s.threads.at[t := Thread(s.threads.at[t].name, ids)])
            && (r.Err? ==> s'.threads == s.threads)
            && (forall a :: a in s.inboxes ==> a in s'.inboxes)
            && (forall a :: a in s'.inboxes && a !in s.inboxes ==> s'.inboxes[a] == [])
            && (forall a :: a in s.inboxes ==> s'.inboxes[a] == AfterSet(s, t, ids, r.Ok?, a))
  {
    hide Sound, Sift;
    if t in s.threads.at {
      var was := s.threads.at[t].participants;
      var added, removed := SortedSet(NotIn(ids, was)), SortedSet(NotIn(was, ids));
      RegisterAllGrows(s, added);
      SortedSetIs(NotIn(ids, was));
      SortedSetIs(NotIn(was, ids));
      var (s1, ok) := RegisterAll(s, added);
      SameThreads(s, s1);
      GrownOnly(s, s1);
      if ok {
        ParticipantsOwnQueues(s, t);
        DropAllOnly(s1, removed, {Thread_(t)});
        var s2 := DropAll(s1, removed, {Thread_(t)});
        QueuesSound(s1, s2);
        GrownSelf(s2);
        ParticipantsAreAgents(s, t);
        WidenSound(s2, s2, t, s.threads.at[t].name, ids);
      }
    }
  }

  lemma ParticipantsAreAgents(s: Server, t: nat)
    requires Sound(s) && t in s.threads.at
    ensures forall a :: a in s.threads.at[t].participants ==> a in s.agents
  {}

  lemma SetsKeep(s: Sys, e: Event)
    requires Inv(s) && e.Sets? && Distinct(e.participants)
    ensures Inv(Advance(s, e))
  {
    hide Sound, Accounted, Sift, SetParticipants;
    var next := Step(s.server, e);
    SetsShape(s.server, e.thread, e.participants);
    forall a | a in next.inboxes
      ensures Accounted(next, a, next.inboxes[a], At(s.taken, a) + TakenBy(s.server, e, a),
                        At(s.lost, a) + LostBy(s.server, e, a))
    {
      var topics := {Thread_(e.thread)};
      if a !in s.server.inboxes {
        NewQueue(s.server, next, a);
        SiftNothing(s.server.index, topics);
        Unchanged(At(s.taken, a), At(s.lost, a));
      } else if LostApplies(s.server, e, a) {
        DropAccounts(s.server, next, a, topics, s.server.inboxes[a], At(s.taken, a), At(s.lost, a));
        Unchanged(At(s.taken, a), At(s.lost, a));
      } else {
        QueueStays(s.server, next, a, s.server.inboxes[a], At(s.taken, a), At(s.lost, a));
      }
    }
    AdvanceFits(s, e);
  }

  lemma {:induction false} MissingIs(q: seq<nat>, kept: seq<nat>)
    ensures forall id :: id in Missing(q, kept) <==> id in q && id !in kept
    ensures Increasing(q) ==> Increasing(Missing(q, kept))
    decreases |q|
  {
    if q != [] {
      var front, last := q[..|q| - 1], q[|q| - 1];
      assert q == front + [last];
      MissingIs(front, kept);
      if Increasing(q) { IncreasingSnoc(front, last, Missing(front, kept)); }
    }
  }

  lemma IncreasingSnoc(front: seq<nat>, last: nat, part: seq<nat>)
    requires Increasing(front + [last]) && (Increasing(front) ==> Increasing(part))
    requires forall id :: id in part ==> id in front
    ensures Increasing(front) && Increasing(part) && Increasing(part + [last])
  {
    var q := front + [last];
    assert forall i :: 0 <= i < |front| ==> front[i] == q[i];
    forall i | 0 <= i < |part| ensures part[i] < last {
      assert part[i] in part;
      var j :| 0 <= j < |front| && front[j] == part[i];
      assert q[j] < q[|front|];
    }
  }

  /** With what a restored queue no longer holds counted as dropped, the deliveries are still
      accounted for exactly when the queue is an in-order part of what waited. */
  lemma RestoredAccountsIff(s: Server, s': Server, a: Id, q: seq<nat>, kept: seq<nat>, taken: seq<nat>, lost: seq<nat>)
    requires Accounted(s, a, q, taken, lost) && s'.messages == s.messages
    ensures Accounted(s', a, kept, taken, lost + Missing(q, kept)) <==> PartOf(kept, q)
  {
    var gone := Missing(q, kept);
    MissingIs(q, kept);
    assert forall id :: Delivered(s', a, id) <==> Delivered(s, a, id);
    IncreasingParts(taken, q);
    IncreasingParts(taken, kept);
    if PartOf(kept, q) {
      IncreasingDistinct(gone);
      DistinctParts(lost, gone);
    } else if Accounted(s', a, kept, taken, lost + gone) {
      forall id | id in kept ensures id in q { assert Delivered(s, a, id) && id !in lost + gone && id !in taken; }
    }
  }

  /** Restoring keeps what holds over every run exactly when each saved queue is, as far as its ids
      are known, an in-order part of what waits. */
  lemma RestoreKeepsIff(s: Sys, saved: map<Id, seq<nat>>)
    requires Inv(s)
    ensures Inv(Advance(s, Restores(saved))) <==> Restorable(s.server, saved)
  {
    hide Sound, Accounted, PartOf;
    var e, next := Restores(saved), Restore(s.server, saved);
    QueuesSound(s.server, next);
    forall a | a in next.inboxes
      ensures Accounted(next, a, next.inboxes[a], At(s.taken, a) + TakenBy(s.server, e, a),
                        At(s.lost, a) + LostBy(s.server, e, a))
              <==> (a in saved ==> PartOf(Known(saved[a], s.server.index), s.server.inboxes[a]))
    {
      var q := s.server.inboxes[a];
      if a in saved {
        RestoredAccountsIff(s.server, next, a, q, next.inboxes[a], At(s.taken, a), At(s.lost, a));
        Unchanged(At(s.taken, a), At(s.lost, a));
      } else {
        QueueStays(s.server, next, a, q, At(s.taken, a), At(s.lost, a));
      }
    }
    if Restorable(s.server, saved) { AdvanceFits(s, e); }
  }

  predicate LostApplies(s: Server, e: Event, a: Id)
    requires e.Sets?
  {
    SetParticipants(s, e.thread, e.participants).1.Ok? && a in s.threads.at[e.thread].participants
        && a !in e.participants
  }

  lemma SiftNothing(index: map<nat, Message>, topics: set<Topic>)
    ensures Sift([], index, topics, true) == []
  {}

  lemma StepKeeps(s: Sys, e: Event)
    requires Inv(s) && Proper(s.server, e)
    ensures Inv(Advance(s, e))
  {
    hide Inv, Advance;
    match e {
      case Registers(_) => RegistersKeep(s, e);
      case RegistersHuman(_) => RegistersKeep(s, e);
      case Creates(_, _, _) => CreatesKeep(s, e);
      case Sends(_, _, _, _) => PostsKeep(s, e);
      case HumanSends(_, _, _, _) => PostsKeep(s, e);
      case Injects(_, _, _) => PostsKeep(s, e);
      case Drains(_) => DrainKeeps(s, e);
      case Drops(_, _) => DropKeeps(s, e);
      case Sets(_, _) => SetsKeep(s, e);
      case Restores(saved) => RestoreKeepsIff(s, saved);
    }
  }

  /** Every step is proper where it is taken. */
  ghost predicate ProperRun(es: seq<Event>) {
    forall i :: 0 <= i < |es| ==> Proper(Run(es[..i]).server, es[i])
  }

  /** Over every run: a message's id and place are its position in the log, thread names are unique,
      participants are registered, and every delivery is drained, dropped or queued exactly once,
      each owner draining its messages in the order they were sent. */
  lemma {:induction false} RunKeeps(es: seq<Event>)
    requires ProperRun(es)
    ensures Inv(Run(es))
    decreases |es|
  {
    hide Inv, Advance, Proper;
    if es == [] { NewFits(); }
    else {
      var front := es[..|es| - 1];
      assert forall i :: 0 <= i < |front| ==> es[..i] == front[..i] && es[i] == front[i];
      RunKeeps(front);
      StepKeeps(Run(es[..|es| - 1]), es[|es| - 1]);
    }
  }

  lemma NewFits()
    ensures Inv(Sys(NEW_SERVER, map[], map[]))
  {}

  // ---- What single calls do ---------------------------------------------------------------------------------------

  lemma InboxKnown(s: Sys, a: Id, id: nat)
    requires Inv(s) && a in s.server.inboxes && id in s.server.inboxes[a]
    ensures id in s.server.index && s.server.index[id] == s.server.messages[id - 1]
  {
    assert Delivered(s.server, a, id);
  }

  /** Dropping takes exactly the messages of the named threads out of one queue, keeps the order of
      the others, and touches no other queue and nothing else. */
  lemma DropIsExact(s: Sys, agent: Id, topics: set<Topic>, a: Id)
    requires Inv(s) && a in s.server.inboxes
    ensures var s' := DropFrom(s.server, agent, topics);
            && s' == s.server.(inboxes := s'.inboxes) && a in s'.inboxes && Increasing(s'.inboxes[a])
            && forall id :: id in s'.inboxes[a] <==>
                 id in s.server.inboxes[a] && (a == agent ==> s.server.messages[id - 1].topic !in topics)
  {
    var q := s.server.inboxes[a];
    DropOnly(s.server, agent, topics);
    IncreasingParts(At(s.taken, a), q);
    SiftIncreasing(q, s.server.index, topics, false);
    forall id | id in q ensures id in s.server.index && s.server.index[id] == s.server.messages[id - 1] {
      InboxKnown(s, a, id);
    }
  }

  lemma {:induction false} KnownAll(q: seq<nat>, index: map<nat, Message>)
    requires forall id :: id in q ==> id in index
    ensures Known(q, index) == q
    decreases |q|
  {
    if q != [] {
      assert q == q[..|q| - 1] + [q[|q| - 1]] && q[|q| - 1] in q;
      KnownAll(q[..|q| - 1], index);
    }
  }

  /** Restoring what was exported changes nothing. */
  lemma RestoreExported(s: Sys)
    requires Inv(s)
    ensures Restore(s.server, s.server.inboxes) == s.server
  {
    forall a | a in s.server.inboxes ensures Known(s.server.inboxes[a], s.server.index) == s.server.inboxes[a] {
      forall id | id in s.server.inboxes[a] ensures id in s.server.index { InboxKnown(s, a, id); }
      KnownAll(s.server.inboxes[a], s.server.index);
    }
  }

  /** A session that resumes with the log as it was and the queues of an earlier save: every delivery
      to an owner is still accounted for exactly when its saved queue is the one that waited. */
  lemma ResumeIsExactIff(s: Sys, saved: map<Id, seq<nat>>, a: Id)
    requires Inv(s) && a in s.server.inboxes && a in saved
    ensures var s' := Restore(s.server, saved);
            Accounted(s', a, s'.inboxes[a], At(s.taken, a), At(s.lost, a))
            <==> Known(saved[a], s.server.index) == s.server.inboxes[a]
  {
    var s', q := Restore(s.server, saved), s.server.inboxes[a];
    var kept, taken, lost := s'.inboxes[a], At(s.taken, a), At(s.lost, a);
    assert forall id :: Delivered(s', a, id) <==> Delivered(s.server, a, id);
    if Accounted(s', a, kept, taken, lost) {
      IncreasingParts(taken, q);
      IncreasingParts(taken, kept);
      SameIncreasing(q, kept);
    }
  }

  lemma {:induction false} SameIncreasing(q: seq<nat>, r: seq<nat>)
    requires Increasing(q) && Increasing(r) && forall id :: id in q <==> id in r
    ensures q == r
    decreases |q|
  {
    if q == [] || r == [] {
      SameEmpty(q, r);
    } else {
      var m, n := |q| - 1, |r| - 1;
      LastIsLargest(q);
      LastIsLargest(r);
      assert q[m] in q && r[n] in r;
      assert q[m] == r[n];
      forall id ensures id in q[..m] <==> id in r[..n] { assert id in q[..m] <==> id in q && id != q[m]; }
      assert q == q[..m] + [q[m]] && r == r[..n] + [r[n]];
      SameIncreasing(q[..m], r[..n]);
    }
  }

  lemma SameEmpty(q: seq<nat>, r: seq<nat>)
    requires forall id :: id in q <==> id in r
    ensures q == [] <==> r == []
  {
    if q != [] { assert q[0] in q; }
    if r != [] { assert r[0] in r; }
  }

  lemma LastIsLargest(q: seq<nat>)
    requires Increasing(q) && q != []
    ensures var last := q[|q| - 1];
            && (forall id :: id in q ==> id <= last)
            && (forall id :: id in q[..|q| - 1] <==> id in q && id != last) && Increasing(q[..|q| - 1])
  {
    assert q == q[..|q| - 1] + [q[|q| - 1]];
    IncreasingParts(q[..|q| - 1], [q[|q| - 1]]);
  }

  /** Naming an existing thread without being the runtime's bootstrap joins nobody and changes
      nothing; with it, participants are only ever added. */
  lemma OnlyBootstrapWidens(s: Server, name: string, participants: seq<Id>, bootstrap: bool, t: nat)
    requires Sound(s) && t in s.threads.at && s.threads.at[t].name == name && Distinct(participants)
    ensures var (s', r) := CreateThread(s, name, participants, bootstrap);
            && (!bootstrap ==> s' == s && r == Ok(t))
            && t in s'.threads.at
            && (forall a :: a in s.threads.at[t].participants ==> a in s'.threads.at[t].participants)
            && (forall a :: a in s'.threads.at[t].participants ==>
                 a in s.threads.at[t].participants || (bootstrap && a in participants))
  {
    hide Sound;
    ThreadOrder(s, t);
    ByNameIs(s.threads.order, s.threads.at, name, t);
    NamesUnique(s, ByName(s.threads.order, s.threads.at, name).value, t);
    var existing := s.threads.at[t].participants;
    SortedSetIs(existing + participants);
    RegisterAllGrows(s, SortedSet(NotIn(participants, existing)));
    SameThreads(s, RegisterAll(s, SortedSet(NotIn(participants, existing))).0);
  }

  /** A new name makes a new thread with the next number and exactly the given list, all of whom
      then have a queue, unless the list holds a reserved name. */
  lemma NewThread(s: Server, name: string, participants: seq<Id>, bootstrap: bool)
    requires Sound(s) && forall t :: t in s.threads.at ==> s.threads.at[t].name != name
    ensures var (s', r) := CreateThread(s, name, participants, bootstrap);
            && (r.Err? <==> exists x :: x in participants && IsHumanName(x))
            && (r.Err? ==> s'.threads == s.threads)
            && (r.Ok? ==>
                  && r == Ok(s.nextThread) && s.nextThread !in s.threads.at
                  && s'.threads.at == s.threads.at[s.nextThread := Thread(name, participants)]
                  && forall x :: x in participants ==> x in s'.inboxes)
  {
    var (s1, ok) := RegisterAll(s, participants);
    RegisterAllGrows(s, participants);
    ByNameIs(s.threads.order, s.threads.at, name, 0);
  }

  lemma NamesUnique(s: Server, t: nat, u: nat)
    requires Sound(s) && t in s.threads.at && u in s.threads.at && s.threads.at[t].name == s.threads.at[u].name
    ensures t == u
  {}

  lemma {:induction false} PushCounts(inboxes: map<Id, seq<nat>>, targets: seq<Id>, id: nat, a: Id)
    requires a in inboxes
    ensures var r := PushAll(inboxes, targets, id);
            a in r && |r[a]| == |inboxes[a]| + multiset(targets)[a]
    decreases |targets|
  {
    if targets != [] {
      PushCounts(inboxes, targets[..|targets| - 1], id, a);
      assert targets == targets[..|targets| - 1] + [targets[|targets| - 1]];
    }
  }

  // ---- How often a name in a thread's list gets a message -------------------------------------------------------

  /** Whom an agent's message, or a person's, to a thread goes to among the participants. */
  predicate Addressed(s: Server, author: Id, mentions: seq<Id>, a: Id) {
    if mentions != [] then a in mentions else author in s.humans || a != author
  }

  lemma {:induction false} AmongCount(participants: seq<Id>, mentions: seq<Id>, a: Id)
    ensures multiset(Among(participants, mentions))[a] == if a in mentions then multiset(participants)[a] else 0
  {
    if participants != [] {
      AmongCount(participants[1..], mentions, a);
      assert participants == [participants[0]] + participants[1..];
    }
  }

  lemma {:induction false} WithoutCount(participants: seq<Id>, author: Id, a: Id)
    ensures multiset(Without(participants, author))[a] == if a != author then multiset(participants)[a] else 0
  {
    if participants != [] {
      WithoutCount(participants[1..], author, a);
      assert participants == [participants[0]] + participants[1..];
    }
  }

  lemma {:induction false} WithHumansCount(targets: seq<Id>, humans: set<Id>, mentions: seq<Id>, a: Id)
    ensures multiset(WithHumans(targets, humans, mentions))[a]
            == if a in targets then multiset(targets)[a] else if a in mentions && a in humans then 1 else 0
    decreases |mentions|
  {
    if mentions != [] {
      var front, m := mentions[..|mentions| - 1], mentions[|mentions| - 1];
      assert mentions == front + [m];
      WithHumansCount(targets, humans, front, a);
      assert a in WithHumans(targets, humans, front) <==> multiset(WithHumans(targets, humans, front))[a] > 0;
    }
  }

  /** How many copies of a message each queue gets: as many as the list names its owner, when the
      message is addressed to it, and one when it is a mentioned person outside the thread. */
  lemma CopiesAre(s: Server, t: nat, author: Id, content: string, mentions: seq<Id>, a: Id)
      returns (copies: nat, s': Server)
    requires t in s.threads.at && a in s.inboxes
    requires author in s.humans || (author in s.agents && author in s.threads.at[t].participants)
    ensures s' == if author in s.humans then HumanSend(s, t, author, content, mentions).0
                                        else SendMessage(s, t, author, content, mentions).0
    ensures a in s'.inboxes && |s'.inboxes[a]| == |s.inboxes[a]| + copies
    ensures var ps := s.threads.at[t].participants;
            copies == if a in ps && Addressed(s, author, mentions, a) then multiset(ps)[a]
                      else if a !in ps && author !in s.humans && a in mentions && a in s.humans then 1 else 0
  {
    var ps := s.threads.at[t].participants;
    var targets := if author in s.humans then HumanTargets(ps, mentions) else Targets(s, ps, author, mentions);
    s' := if author in s.humans then HumanSend(s, t, author, content, mentions).0
                                else SendMessage(s, t, author, content, mentions).0;
    hide SendMessage, HumanSend;
    CopiesPushed(s, t, author, content, mentions, targets, s', a);
    copies := multiset(targets)[a];
    AmongCount(ps, mentions, a);
    WithoutCount(ps, author, a);
    WithHumansCount(Among(ps, mentions), s.humans, mentions, a);
  }

  lemma CopiesPushed(s: Server, t: nat, author: Id, content: string, mentions: seq<Id>, targets: seq<Id>, s': Server,
                     a: Id)
    requires t in s.threads.at && a in s.inboxes
    requires author in s.humans || (author in s.agents && author in s.threads.at[t].participants)
    requires var ps := s.threads.at[t].participants;
             targets == if author in s.humans then HumanTargets(ps, mentions) else Targets(s, ps, author, mentions)
    requires s' == if author in s.humans then HumanSend(s, t, author, content, mentions).0
                                         else SendMessage(s, t, author, content, mentions).0
    ensures a in s'.inboxes && |s'.inboxes[a]| == |s.inboxes[a]| + multiset(targets)[a]
  {
    hide PushAll, Targets, HumanTargets;
    PushCounts(s.inboxes, targets, s.nextMessage, a);
  }

  ghost predicate OneCopyEach(s: Server, s': Server) {
    forall a :: a in s.inboxes ==> a in s'.inboxes && |s'.inboxes[a]| <= |s.inboxes[a]| + 1
  }

  /** A message to a thread, by an agent or a person, with mentions or without, reaches nobody twice
      exactly when the thread's list names nobody twice whom it is addressed to. */
  lemma DeliveredOnceIff(s: Server, t: nat, author: Id, content: string, mentions: seq<Id>) returns (s': Server)
    requires Owned(s) && t in s.threads.at && forall a :: a in s.threads.at[t].participants ==> a in s.agents
    requires author in s.humans || (author in s.agents && author in s.threads.at[t].participants)
    ensures s' == if author in s.humans then HumanSend(s, t, author, content, mentions).0
                                        else SendMessage(s, t, author, content, mentions).0
    ensures var ps := s.threads.at[t].participants;
            OneCopyEach(s, s') <==> forall a :: a in ps && Addressed(s, author, mentions, a) ==> multiset(ps)[a] == 1
  {
    hide SendMessage, HumanSend;
    var ps := s.threads.at[t].participants;
    s' := if author in s.humans then HumanSend(s, t, author, content, mentions).0
                                else SendMessage(s, t, author, content, mentions).0;
    forall a | a in s.inboxes
      ensures a in s'.inboxes
      ensures |s'.inboxes[a]| <= |s.inboxes[a]| + 1 <==>
              (a in ps && Addressed(s, author, mentions, a) ==> multiset(ps)[a] == 1)
    {
      var copies, again := CopiesAre(s, t, author, content, mentions, a);
      assert a in ps <==> multiset(ps)[a] > 0;
    }
  }

  /** ... so every message its members send through a thread reaches nobody twice exactly when the
      list it was created with names nobody twice. */
  lemma ThreadDeliversOnceIff(s: Server, t: nat, content: string)
    requires Owned(s) && t in s.threads.at && forall a :: a in s.threads.at[t].participants ==> a in s.agents
    ensures var ps := s.threads.at[t].participants;
            (forall author, mentions :: author in ps ==> OneCopyEach(s, SendMessage(s, t, author, content, mentions).0))
              <==> Distinct(ps)
  {
    hide SendMessage, HumanSend;
    var ps := s.threads.at[t].participants;
    OnceIff(ps);
    if Distinct(ps) {
      forall author, mentions | author in ps ensures OneCopyEach(s, SendMessage(s, t, author, content, mentions).0) {
        var s' := DeliveredOnceIff(s, t, author, content, mentions);
      }
    } else {
      var a :| a in ps && multiset(ps)[a] != 1;
      var s' := DeliveredOnceIff(s, t, a, content, [a]);
      assert Addressed(s, a, [a], a) && !OneCopyEach(s, SendMessage(s, t, a, content, [a]).0);
    }
  }

  lemma OnceIff(targets: seq<Id>)
    ensures Distinct(targets) <==> forall a :: a in targets ==> multiset(targets)[a] == 1
  {
    if Distinct(targets) {
      DistinctOnce(targets);
    } else {
      var i, j :| 0 <= i < j < |targets| && targets[i] == targets[j];
      assert targets == targets[..j] + targets[j..];
      assert targets[..j][i] in targets[..j] && targets[j..][0] in targets[j..];
      assert multiset(targets)[targets[i]]
             == multiset(targets[..j])[targets[i]] + multiset(targets[j..])[targets[i]] >= 2;
    }
  }

  lemma {:induction false} DistinctOnce(targets: seq<Id>)
    requires Distinct(targets)
    ensures forall a :: a in targets ==> multiset(targets)[a] == 1
    decreases |targets|
  {
    if targets != [] {
      var front, last := targets[..|targets| - 1], targets[|targets| - 1];
      assert targets == front + [last] && forall i :: 0 <= i < |front| ==> front[i] == targets[i];
      DistinctOnce(front);
      assert last !in front;
    }
  }
}
