/** Approval tokens (src/agent_augury/core/agent/approval.py:113-141, 195-382) and the call that
    settles them (src/agent_augury/core/session.py:241-340). */
module Approvals {
  import opened Tables
  import opened StableJson

  // ---- Normal form of a call's arguments --------------------------------------------------------

  const SLASH: Unit := 47

  /** `value.replace("\\", "/")`. */
  function Slashed(s: Str): (r: Str)
    ensures |r| == |s|
  {
    seq(|s|, i requires 0 <= i < |s| => if s[i] == BACKSLASH then SLASH else s[i])
  }

  /** `s.rstrip("/")`. */
  function RStripSlash(s: Str): (r: Str)
    ensures |r| <= |s|
    decreases |s|
  {
    if s != [] && s[|s| - 1] == SLASH then RStripSlash(s[..|s| - 1]) else s
  }

  function NormText(s: Str): Str {
    if SLASH in s || BACKSLASH in s then
      var cleaned := Slashed(s);
      if |cleaned| > 1 && cleaned[|cleaned| - 1] == SLASH then RStripSlash(cleaned) else cleaned
    else s
  }

  function Norm(v: Json): Json {
    match v
    case Text(s) => Text(NormText(s))
    case Arr(items) => Arr(NormAll(items))
    case Obj(fields) => Obj(SortByKey(NormFields(fields)))
    case _ => v
  }

  function NormAll(items: seq<Json>): (r: seq<Json>)
    ensures |r| == |items|
  {
    if items == [] then [] else [Norm(items[0])] + NormAll(items[1..])
  }

  function NormFields(fields: seq<Entry<Json>>): (r: seq<Entry<Json>>)
    ensures |r| == |fields|
  {
    if fields == [] then [] else [Entry(fields[0].key, Norm(fields[0].value))] + NormFields(fields[1..])
  }

  lemma {:induction false} RStripSlashEnds(s: Str)
    ensures RStripSlash(s) == s[..|RStripSlash(s)|]
    ensures var r := RStripSlash(s); r == [] || r[|r| - 1] != SLASH
    decreases |s|
  {
    if s != [] && s[|s| - 1] == SLASH {
      RStripSlashEnds(s[..|s| - 1]);
      var k := |RStripSlash(s)|;
      assert s[..|s| - 1][..k] == s[..k];
    }
  }

  lemma SlashedHasNoBackslash(s: Str, k: nat)
    requires k <= |s|
    ensures BACKSLASH !in Slashed(s)[..k] && Slashed(Slashed(s)[..k]) == Slashed(s)[..k]
  {}

  lemma NormTextShape(s: Str)
    ensures var r := NormText(s);
            && BACKSLASH !in r && Slashed(r) == r
            && (|r| > 1 ==> r[|r| - 1] != SLASH)
  {
    var cleaned := Slashed(s);
    RStripSlashEnds(cleaned);
    SlashedHasNoBackslash(s, |s|);
    assert cleaned[..|s|] == cleaned;
    SlashedHasNoBackslash(s, |RStripSlash(cleaned)|);
    if SLASH !in s && BACKSLASH !in s {
      assert Slashed(s) == s;
      assert |s| > 1 ==> s[|s| - 1] in s;
    }
  }

  lemma NormTextIdempotent(s: Str)
    ensures NormText(NormText(s)) == NormText(s)
  {
    NormTextShape(s);
  }

  /** A normal text ends in a slash only when it is "/" alone: a drive root loses its slash too. */
  lemma SlashStaysIff(s: Str)
    ensures var r := NormText(s);
            (r != [] && r[|r| - 1] == SLASH) <==> (s == [SLASH] || s == [BACKSLASH])
  {
    NormTextShape(s);
    var r, cleaned := NormText(s), Slashed(s);
    RStripSlashEnds(cleaned);
    HeadIn(s);
    if r != [] && r[|r| - 1] == SLASH {
      assert |r| == 1;
      assert s == [s[0]];
    }
    assert s == [SLASH] || s == [BACKSLASH] ==> r == [SLASH];
  }

  lemma HeadIn(s: Str)
    ensures s != [] ==> s[0] in s
  {}

  lemma {:induction false} SortedStays<T(!new)>(f: seq<Entry<T>>)
    requires Sorted(f)
    ensures SortByKey(f) == f
    decreases |f|
  {
    if f != [] {
      assert forall i, j :: 0 <= i < j < |f[1..]| ==> f[1..][i] == f[i + 1] && f[1..][j] == f[j + 1];
      SortedStays(f[1..]);
      assert f == [f[0]] + f[1..];
      if |f| > 1 { assert Less(f[0].key, f[1].key); }
    }
  }

  lemma {:induction false} NormFieldsAt(fields: seq<Entry<Json>>, i: nat)
    requires i < |fields|
    ensures NormFields(fields)[i] == Entry(fields[i].key, Norm(fields[i].value))
    decreases i
  {
    if i > 0 { NormFieldsAt(fields[1..], i - 1); }
  }

  lemma {:induction false} NormAllAt(items: seq<Json>, i: nat)
    requires i < |items|
    ensures NormAll(items)[i] == Norm(items[i])
    decreases i
  {
    if i > 0 { NormAllAt(items[1..], i - 1); }
  }

  /** Fields whose values are normal already. */
  lemma FieldsStay(fields: seq<Entry<Json>>)
    requires forall i :: 0 <= i < |fields| ==> Norm(fields[i].value) == fields[i].value
    ensures NormFields(fields) == fields
  {
    forall i | 0 <= i < |fields| ensures NormFields(fields)[i] == fields[i] { NormFieldsAt(fields, i); }
  }

  /** The normal form of well-formed arguments is its own normal form. */
  lemma {:induction false} NormIdempotent(v: Json)
    requires Wf(v)
    ensures Norm(Norm(v)) == Norm(v)
    decreases v
  {
    match v {
      case Text(s) => NormTextIdempotent(s);
      case Arr(items) =>
        var r := Norm(v);
        forall i | 0 <= i < |items| ensures Norm(r.items[i]) == r.items[i] {
          NormAllAt(items, i);
          NormIdempotent(items[i]);
        }
        forall i | 0 <= i < |items| ensures NormAll(r.items)[i] == r.items[i] { NormAllAt(r.items, i); }
        assert NormAll(r.items) == r.items;
      case Obj(fields) => NormObjIdempotent(v);
      case _ =>
    }
  }

  lemma {:induction false} NormObjIdempotent(v: Json)
    requires v.Obj? && Wf(v)
    ensures Norm(Norm(v)) == Norm(v)
    decreases v, 0
  {
    var f, g := v.fields, NormFields(v.fields);
    forall i | 0 <= i < |f| ensures g[i].key == f[i].key && Norm(g[i].value) == g[i].value {
      NormFieldsAt(f, i);
      assert f[i] in f;
      NormIdempotent(f[i].value);
    }
    SortByKeyCorrect(g);
    var r := Norm(v);
    forall i | 0 <= i < |r.fields| ensures Norm(r.fields[i].value) == r.fields[i].value {
      assert r.fields[i] in r.fields;
      var j :| 0 <= j < |g| && g[j] == r.fields[i];
    }
    FieldsStay(r.fields);
    SortedStays(r.fields);
  }

  // ---- Tokens -------------------------------------------------------------------------------------

  datatype State = Pending | Granted | Denied | Expired | Executed

  datatype Token = Token(agent: string, tool: string, digest: string, args: Json,
                         created: real, expires: real, state: State, reason: Option<string>)

  type Store = Table<string, Token>

  /** SHA-256 over the printed tool and normal arguments: any function of the two. */
  type Hash = (string, Json) -> string

  function Fingerprint(h: Hash, tool: string, args: Json): string {
    h(tool, Norm(args))
  }

  /** Pending and not yet due. */
  predicate Live(t: Token, now: real) {
    t.state.Pending? && t.expires > now
  }

  predicate ForCall(t: Token, agent: string, tool: string, digest: string) {
    t.agent == agent && t.tool == tool && t.digest == digest
  }

  function FirstLive(order: seq<string>, at: map<string, Token>, agent: string, tool: string, digest: string,
                     now: real): Option<string>
  {
    if order == [] then None
    else if order[0] in at && Live(at[order[0]], now) && ForCall(at[order[0]], agent, tool, digest) then Some(order[0])
    else FirstLive(order[1..], at, agent, tool, digest, now)
  }

  function MaxReal(a: real, b: real): real {
    if a < b then b else a
  }

  /** The token that a call waits for, made under `id` if there is none. */
  function RequestOrJoin(s: Store, agent: string, tool: string, args: Json, ttl: real, now: real, id: string, h: Hash)
    : (Store, string, bool)
  {
    var digest := Fingerprint(h, tool, args);
    match FirstLive(s.order, s.at, agent, tool, digest, now)
    case Some(found) => (s, found, false)
    case None =>
      var t := Token(agent, tool, digest, Norm(args), now, now + MaxReal(1.0, ttl), Pending, None);
      (s.Put(id, t), id, true)
  }

  datatype Reply = Unknown | HasExpired | NotPending(state: State) | Settled(token: Token)

  function Or(reason: Option<string>, other: Option<string>): Option<string> {
    if reason.Some? && reason.value != "" then reason else other
  }

  function Resolve(s: Store, id: string, grant: bool, reason: Option<string>, now: real): (Store, Reply) {
    if id !in s.at then (s, Unknown)
    else
      var t := s.at[id];
      if t.state.Pending? && t.expires <= now then (s.Put(id, Overdue(t)), HasExpired)
      else if !t.state.Pending? then (s, NotPending(t.state))
      else
        var settled := if grant then t.(state := Granted, reason := Or(reason, None))
                       else t.(state := Denied, reason := Or(reason, Some("user")));
        (s.Put(id, settled), Settled(settled))
  }

  function Overdue(t: Token): Token {
    t.(state := Expired, reason := Some("expired"))
  }

  predicate IsDue(t: Token, now: real) {
    t.state.Pending? && t.expires <= now
  }

  /** `expire_due` over the ids in order: the new tokens and the ids newly expired. */
  function ExpireDue(s: Store, ids: seq<string>, now: real): (Store, seq<string>)
    decreases |ids|
  {
    if ids == [] then (s, [])
    else
      var (before, out) := ExpireDue(s, ids[..|ids| - 1], now);
      var id := ids[|ids| - 1];
      if id in before.at && IsDue(before.at[id], now) then (before.Put(id, Overdue(before.at[id])), out + [id])
      else (before, out)
  }

  function MarkExecuted(s: Store, id: string): Store {
    if id in s.at && s.at[id].state.Granted? then s.Put(id, s.at[id].(state := Executed)) else s
  }

  predicate DigestMatches(s: Store, id: string, tool: string, args: Json, h: Hash) {
    id in s.at && s.at[id].tool == tool && s.at[id].digest == Fingerprint(h, tool, args)
  }

  // ---- A session's approvals ------------------------------------------------------------------------

  /** A tool body that was started: under which token, with what, when, and the token's deadline. */
  datatype Start = Start(id: string, tool: string, args: Json, at: real, deadline: real)

  /** `running`: the calls inside the await between grant and "executed". */
  datatype Sys = Sys(store: Store, running: set<string>, started: seq<Start>, clock: real)

  datatype Event =
    | Requests(agent: string, tool: string, args: Json, ttl: real, id: string, now: real)
    | Resolves(rid: string, grant: bool, reason: Option<string>, agentKnown: bool, now: real)
    | Finishes(fid: string)
    | Expires(now: real)

  /** `resolve_approval` up to its await, or to its end when there is nothing to run. */
  function ResolveCall(s: Sys, id: string, grant: bool, reason: Option<string>, agentKnown: bool, now: real,
                       h: Hash): Sys {
    var (store, reply) := Resolve(s.store, id, grant, reason, now);
    var s1 := s.(store := store, clock := now);
    if !reply.Settled? || !agentKnown || !grant then s1
    else if DigestMatches(store, id, reply.token.tool, reply.token.args, h) then
      s1.(running := s.running + {id},
          started := s.started + [Start(id, reply.token.tool, reply.token.args, now, reply.token.expires)])
    else s1.(store := store.Put(id, reply.token.(state := Denied, reason := Some("digest_mismatch"))))
  }

  function Step(s: Sys, e: Event, h: Hash): Sys {
    match e
    case Requests(agent, tool, args, ttl, id, now) =>
      s.(store := RequestOrJoin(s.store, agent, tool, args, ttl, now, id, h).0, clock := now)
    case Resolves(id, grant, reason, agentKnown, now) => ResolveCall(s, id, grant, reason, agentKnown, now, h)
    case Finishes(id) =>
      if id in s.running then s.(store := MarkExecuted(s.store, id), running := s.running - {id}) else s
    case Expires(now) => s.(store := ExpireDue(s.store, s.store.order, now).0, clock := now)
  }

  /** A new token's id is new, and arguments are JSON trees. */
  ghost predicate Proper(s: Sys, e: Event) {
    e.Requests? ==> e.id !in s.store.at && Wf(e.args)
  }

  ghost predicate OnTime(s: Sys, e: Event) {
    e.Finishes? || s.clock <= e.now
  }

  function Run(s: Sys, es: seq<Event>, h: Hash): Sys
    decreases |es|
  {
    if es == [] then s else Step(Run(s, es[..|es| - 1], h), es[|es| - 1], h)
  }

  ghost predicate ProperRun(s: Sys, es: seq<Event>, h: Hash) {
    forall i :: 0 <= i < |es| ==> Proper(Run(s, es[..i], h), es[i])
  }

  ghost predicate TimelyRun(s: Sys, es: seq<Event>, h: Hash) {
    forall i :: 0 <= i < |es| ==> OnTime(Run(s, es[..i], h), es[i])
  }

  // ---- What a step does to one token ------------------------------------------------------------------

  /** The moves a token's state may make in one step. */
  predicate Moves(a: State, b: State) {
    || a == b
    || (a.Pending? && !b.Executed?)
    || (a.Granted? && b.Executed?)
  }

  /** The same token, apart from its state and reason. */
  predicate SameToken(a: Token, b: Token) {
    a.(state := b.state, reason := b.reason) == b
  }

  lemma {:induction false} ExpireDueAt(s: Store, ids: seq<string>, now: real, id: string)
    requires s.Valid()
    ensures var s' := ExpireDue(s, ids, now).0;
            && s'.Valid() && s'.order == s.order && s'.at.Keys == s.at.Keys
            && (id in s.at ==> s'.at[id] == if id in ids && IsDue(s.at[id], now) then Overdue(s.at[id]) else s.at[id])
    decreases |ids|
  {
    if ids != [] {
      var last := ids[|ids| - 1];
      ExpireDueAt(s, ids[..|ids| - 1], now, id);
      ExpireDueAt(s, ids[..|ids| - 1], now, last);
      var before := ExpireDue(s, ids[..|ids| - 1], now).0;
      if last in before.at { before.PutValid(last, Overdue(before.at[last])); }
      assert ids == ids[..|ids| - 1] + [last];
    }
  }

  /** What one step can do to a token that exists. */
  lemma StepToken(s: Sys, e: Event, h: Hash, id: string)
    requires s.store.Valid() && Proper(s, e) && id in s.store.at
    ensures var s', t := Step(s, e, h), s.store.at[id];
            && id in s'.store.at && SameToken(t, s'.store.at[id]) && Moves(t.state, s'.store.at[id].state)
  {
    hide ResolveCall, RequestOrJoin, ExpireDue;
    match e
    case Requests(_, _, _, _, _, _) => RequestToken(s, e, h, id);
    case Resolves(_, _, _, _, _) => ResolveToken(s, e, h, id);
    case Finishes(_) =>
    case Expires(now) => ExpireDueAt(s.store, s.store.order, now, id);
  }

  lemma RequestToken(s: Sys, e: Event, h: Hash, id: string)
    requires e.Requests? && Proper(s, e) && id in s.store.at
    ensures id in Step(s, e, h).store.at && Step(s, e, h).store.at[id] == s.store.at[id]
  {
    hide FirstLive, Fingerprint, Norm;
  }

  lemma ResolveToken(s: Sys, e: Event, h: Hash, id: string)
    requires e.Resolves? && id in s.store.at
    ensures var s', t := Step(s, e, h), s.store.at[id];
            && id in s'.store.at && SameToken(t, s'.store.at[id]) && Moves(t.state, s'.store.at[id].state)
  {
    hide DigestMatches, Or;
    if e.rid != id { ResolvesOther(s, e, h, id); }
  }

  lemma ResolvesOther(s: Sys, e: Event, h: Hash, id: string)
    requires e.Resolves? && id in s.store.at && e.rid != id
    ensures id in Step(s, e, h).store.at && Step(s, e, h).store.at[id] == s.store.at[id]
  {
    hide DigestMatches, Or;
  }

  lemma StepValid(s: Sys, e: Event, h: Hash)
    requires s.store.Valid() && Proper(s, e)
    ensures Step(s, e, h).store.Valid()
  {
    if e.Expires? { ExpireDueAt(s.store, s.store.order, e.now, ""); }
  }

  // ---- Once, and only when granted in time --------------------------------------------------------------

  ghost predicate Honest(s: Sys, e: Start) {
    && e.id in s.store.at
    && (s.store.at[e.id].state.Granted? || s.store.at[e.id].state.Executed?)
    && e.tool == s.store.at[e.id].tool && e.args == s.store.at[e.id].args
    && e.deadline == s.store.at[e.id].expires && e.at < e.deadline
  }

  ghost predicate IsStarted(s: Sys, id: string) {
    exists i :: 0 <= i < |s.started| && s.started[i].id == id
  }

  ghost predicate OnceInv(s: Sys) {
    && s.store.Valid()
    && (forall i :: 0 <= i < |s.started| ==> Honest(s, s.started[i]))
    && (forall i, j :: 0 <= i < j < |s.started| ==> s.started[i].id != s.started[j].id)
    && (forall id :: id in s.running ==> IsStarted(s, id) && id in s.store.at && s.store.at[id].state.Granted?)
    && (forall id :: id in s.store.at && s.store.at[id].state.Executed? ==> IsStarted(s, id))
  }

  lemma HonestKept(s: Sys, e: Event, h: Hash, i: nat)
    requires OnceInv(s) && Proper(s, e) && i < |s.started|
    ensures Honest(Step(s, e, h), s.started[i])
  {
    StepToken(s, e, h, s.started[i].id);
  }

  /** A step starts at most one body: that of a live token just granted. */
  lemma StepStarts(s: Sys, e: Event, h: Hash)
    requires OnceInv(s) && Proper(s, e)
    ensures var s' := Step(s, e, h);
            || s'.started == s.started
            || (&& e.Resolves? && e.grant && e.rid in s.store.at && Live(s.store.at[e.rid], e.now)
                && s'.started == s.started + [Start(e.rid, s.store.at[e.rid].tool, s.store.at[e.rid].args, e.now,
                                                    s.store.at[e.rid].expires)]
                && s'.running == s.running + {e.rid} && s'.store.at[e.rid].state.Granted?)
  {}

  lemma StartedKept(s: Sys, e: Event, h: Hash, id: string)
    requires IsStarted(s, id)
    ensures IsStarted(Step(s, e, h), id)
  {
    var i :| 0 <= i < |s.started| && s.started[i].id == id;
    assert Step(s, e, h).started[i] == s.started[i];
  }

  lemma {:induction false} StepKeepsOnce(s: Sys, e: Event, h: Hash)
    requires OnceInv(s) && Proper(s, e)
    ensures OnceInv(Step(s, e, h))
  {
    var s' := Step(s, e, h);
    StepValid(s, e, h);
    StepStarts(s, e, h);
    forall i | 0 <= i < |s'.started| ensures Honest(s', s'.started[i]) {
      if i < |s.started| { HonestKept(s, e, h, i); }
    }
    forall i, j | 0 <= i < j < |s'.started| ensures s'.started[i].id != s'.started[j].id {
      if j == |s.started| { assert Honest(s, s.started[i]); }
    }
    RunningKept(s, e, h);
    ExecutedKept(s, e, h);
  }

  lemma RunningKept(s: Sys, e: Event, h: Hash)
    requires OnceInv(s) && Proper(s, e)
    ensures var s' := Step(s, e, h);
            forall id :: id in s'.running ==> IsStarted(s', id) && id in s'.store.at && s'.store.at[id].state.Granted?
  {
    var s' := Step(s, e, h);
    StepStarts(s, e, h);
    forall id | id in s'.running ensures IsStarted(s', id) && id in s'.store.at && s'.store.at[id].state.Granted? {
      if id in s.running {
        StartedKept(s, e, h, id);
        StepToken(s, e, h, id);
        NotFinished(s, e, h, id);
      } else {
        assert s'.started[|s.started|].id == id;
      }
    }
  }

  lemma NotFinished(s: Sys, e: Event, h: Hash, id: string)
    requires OnceInv(s) && Proper(s, e) && id in s.running && id in Step(s, e, h).running
    requires id in Step(s, e, h).store.at
    ensures Step(s, e, h).store.at[id].state.Granted?
  {
    if e.Expires? { ExpireDueAt(s.store, s.store.order, e.now, id); }
  }

  lemma ExecutedKept(s: Sys, e: Event, h: Hash)
    requires OnceInv(s) && Proper(s, e)
    ensures var s' := Step(s, e, h);
            forall id :: id in s'.store.at && s'.store.at[id].state.Executed? ==> IsStarted(s', id)
  {
    var s' := Step(s, e, h);
    forall id | id in s'.store.at && s'.store.at[id].state.Executed? ensures IsStarted(s', id) {
      if id in s.store.at { StepToken(s, e, h, id); }
      NewlyExecuted(s, e, h, id);
      StartedKept(s, e, h, id);
    }
  }

  lemma NewlyExecuted(s: Sys, e: Event, h: Hash, id: string)
    requires OnceInv(s) && Proper(s, e)
    requires id in Step(s, e, h).store.at && Step(s, e, h).store.at[id].state.Executed?
    ensures IsStarted(s, id)
  {
    if e.Expires? { ExpireDueAt(s.store, s.store.order, e.now, id); }
  }

  lemma {:induction false} RunKeepsOnce(s: Sys, es: seq<Event>, h: Hash)
    requires OnceInv(s) && ProperRun(s, es, h)
    ensures OnceInv(Run(s, es, h))
    decreases |es|
  {
    if es != [] {
      var front := es[..|es| - 1];
      assert forall i :: 0 <= i < |front| ==> es[..i] == front[..i] && es[i] == front[i];
      RunKeepsOnce(s, front, h);
      StepKeepsOnce(Run(s, front, h), es[|es| - 1], h);
    }
  }

  /** A session that starts with the pending tokens it was given, none settled yet. */
  ghost predicate Opening(s: Sys) {
    s.store.Valid() && s.running == {} && s.started == []
    && forall id :: id in s.store.at ==> s.store.at[id].state.Pending? || s.store.at[id].state.Expired?
  }

  /** Over every run of a session, whatever the clock does: each token's tool body starts at most
      once, with the tool and the normal arguments the token was made for, by a grant before its
      deadline, and only tokens whose body was started are ever "executed". */
  lemma StartedAtMostOnce(s: Sys, es: seq<Event>, h: Hash)
    requires Opening(s) && ProperRun(s, es, h)
    ensures OnceInv(Run(s, es, h))
  {
    RunKeepsOnce(s, es, h);
  }

  /** Moves along whole runs. */
  predicate Reaches(a: State, b: State) {
    a == b || a.Pending? || (a.Granted? && b.Executed?)
  }

  /** A token stays, keeps what it was made for, and its state only ever moves forward. */
  lemma {:induction false} TokensMoveForward(s: Sys, es: seq<Event>, h: Hash, id: string)
    requires s.store.Valid() && ProperRun(s, es, h) && id in s.store.at
    ensures var s' := Run(s, es, h);
            && s'.store.Valid() && id in s'.store.at
            && SameToken(s.store.at[id], s'.store.at[id]) && Reaches(s.store.at[id].state, s'.store.at[id].state)
    decreases |es|
  {
    if es != [] {
      var front := es[..|es| - 1];
      assert forall i :: 0 <= i < |front| ==> es[..i] == front[..i] && es[i] == front[i];
      TokensMoveForward(s, front, h, id);
      StepToken(Run(s, front, h), es[|es| - 1], h, id);
      StepValid(Run(s, front, h), es[|es| - 1], h);
    }
  }

  // ---- What each answer does ------------------------------------------------------------------------------

  /** The step settles token id while it is pending and not yet due. */
  ghost predicate Settles(s: Sys, e: Event, id: string) {
    e.Resolves? && e.rid == id && id in s.store.at && s.store.at[id].state == Pending && e.now < s.store.at[id].expires
  }

  /** A grant that finds its agent and not the call that the token was made for. */
  ghost predicate Mismatched(s: Sys, e: Event, h: Hash, id: string)
    requires e.Resolves? && id in s.store.at
  {
    e.grant && e.agentKnown && s.store.at[id].digest != Fingerprint(h, s.store.at[id].tool, s.store.at[id].args)
  }

  /** An empty reason counts as none. */
  ghost predicate ReasonIs(given: Option<string>, otherwise: Option<string>, reason: Option<string>) {
    reason == if given == None || given == Some("") then otherwise else given
  }

  /** A token becomes denied exactly by a denial in time, or by a grant in time whose digest is not
      that of the call it holds; the reason is the one given, or "user", or "digest_mismatch". */
  lemma BecomesDeniedIff(s: Sys, e: Event, h: Hash, id: string)
    requires s.store.Valid() && Proper(s, e) && id in s.store.at && s.store.at[id].state != Denied
    ensures id in Step(s, e, h).store.at
    ensures Step(s, e, h).store.at[id].state == Denied <==> Settles(s, e, id) && (!e.grant || Mismatched(s, e, h, id))
    ensures Settles(s, e, id) && !e.grant ==> ReasonIs(e.reason, Some("user"), Step(s, e, h).store.at[id].reason)
    ensures Settles(s, e, id) && Mismatched(s, e, h, id) ==>
              Step(s, e, h).store.at[id].reason == Some("digest_mismatch")
  {
    AnswerEffect(s, e, h, id);
  }

  /** ... granted exactly by any other grant in time, with the reason given, if any. */
  lemma BecomesGrantedIff(s: Sys, e: Event, h: Hash, id: string)
    requires s.store.Valid() && Proper(s, e) && id in s.store.at && s.store.at[id].state != Granted
    ensures id in Step(s, e, h).store.at
    ensures Step(s, e, h).store.at[id].state == Granted <==> Settles(s, e, id) && e.grant && !Mismatched(s, e, h, id)
    ensures Settles(s, e, id) && e.grant && !Mismatched(s, e, h, id) ==>
              ReasonIs(e.reason, None, Step(s, e, h).store.at[id].reason)
  {
    AnswerEffect(s, e, h, id);
  }

  /** ... expired exactly when it is found pending at or after its deadline, by an answer to it or by
      the timer; and executed exactly when the call that its grant started finishes. */
  lemma BecomesExpiredOrExecutedIff(s: Sys, e: Event, h: Hash, id: string)
    requires s.store.Valid() && Proper(s, e) && id in s.store.at
    ensures id in Step(s, e, h).store.at
    ensures s.store.at[id].state != Expired ==>
              (Step(s, e, h).store.at[id].state == Expired <==>
                 && s.store.at[id].state == Pending && ((e.Resolves? && e.rid == id) || e.Expires?)
                 && s.store.at[id].expires <= e.now)
    ensures s.store.at[id].state == Pending && Step(s, e, h).store.at[id].state == Expired ==>
              Step(s, e, h).store.at[id].reason == Some("expired")
    ensures s.store.at[id].state != Executed ==>
              (Step(s, e, h).store.at[id].state == Executed <==>
                 s.store.at[id].state == Granted && e.Finishes? && e.fid == id && id in s.running)
  {
    AnswerEffect(s, e, h, id);
  }

  /** What one step makes of token id, case by case. */
  ghost predicate Effect(s: Sys, e: Event, h: Hash, id: string, t': Token)
    requires id in s.store.at
  {
    var t := s.store.at[id];
    match e
    case Resolves(rid, grant, reason, _, now) =>
      if rid != id || !t.state.Pending? then t' == t
      else if t.expires <= now then t' == t.(state := Expired, reason := Some("expired"))
      else if !grant then t'.state.Denied? && ReasonIs(reason, Some("user"), t'.reason)
      else if Mismatched(s, e, h, id) then t'.state.Denied? && t'.reason == Some("digest_mismatch")
      else t'.state.Granted? && ReasonIs(reason, None, t'.reason)
    case Finishes(fid) =>
      if fid == id && id in s.running && t.state.Granted? then t'.state.Executed? else t' == t
    case Expires(now) =>
      if t.state.Pending? && t.expires <= now then t' == t.(state := Expired, reason := Some("expired")) else t' == t
    case _ => t' == t
  }

  lemma AnswerEffect(s: Sys, e: Event, h: Hash, id: string)
    requires s.store.Valid() && Proper(s, e) && id in s.store.at
    ensures id in Step(s, e, h).store.at && Effect(s, e, h, id, Step(s, e, h).store.at[id])
  {
    hide RequestOrJoin, ExpireDue, Fingerprint, ResolveCall;
    match e
    case Requests(_, _, _, _, _, _) => RequestToken(s, e, h, id);
    case Resolves(_, _, _, _, _) => ResolveEffect(s, e, h, id);
    case Finishes(_) =>
    case Expires(now) => ExpireDueAt(s.store, s.store.order, now, id);
  }

  lemma ResolveEffect(s: Sys, e: Event, h: Hash, id: string)
    requires e.Resolves? && id in s.store.at
    ensures id in Step(s, e, h).store.at && Effect(s, e, h, id, Step(s, e, h).store.at[id])
  {
    hide Fingerprint;
    if e.rid != id { ResolvesOther(s, e, h, id); }
  }

  /** A denied token stays denied over every run, and no body is ever started under its id. */
  lemma DeniedForGood(s: Sys, es: seq<Event>, h: Hash, id: string)
    requires OnceInv(s) && ProperRun(s, es, h) && id in s.store.at && s.store.at[id].state == Denied
    ensures var r := Run(s, es, h);
            id in r.store.at && r.store.at[id].state == Denied && !IsStarted(r, id)
  {
    TokensMoveForward(s, es, h, id);
    RunKeepsOnce(s, es, h);
    var r := Run(s, es, h);
    assert forall i :: 0 <= i < |r.started| ==> Honest(r, r.started[i]);
  }

  /** From any reachable state, a denial in time makes the token denied, and whatever follows no body
      is started under its id: not by a later grant, either. */
  lemma DenialIsFinal(s: Sys, deny: Event, es: seq<Event>, h: Hash, id: string)
    requires OnceInv(s) && Settles(s, deny, id) && !deny.grant && ProperRun(Step(s, deny, h), es, h)
    ensures var r := Run(Step(s, deny, h), es, h);
            id in r.store.at && r.store.at[id].state == Denied && !IsStarted(r, id)
  {
    BecomesDeniedIff(s, deny, h, id);
    StepKeepsOnce(s, deny, h);
    DeniedForGood(Step(s, deny, h), es, h, id);
  }

  // ---- Digests -------------------------------------------------------------------------------------------

  /** Every token's digest is that of the call it holds. */
  ghost predicate Sealed(s: Store, h: Hash) {
    forall id :: id in s.at ==> s.at[id].digest == Fingerprint(h, s.at[id].tool, s.at[id].args)
  }

  lemma StepKeepsSealed(s: Sys, e: Event, h: Hash)
    requires s.store.Valid() && Sealed(s.store, h) && Proper(s, e)
    ensures Sealed(Step(s, e, h).store, h)
  {
    var s' := Step(s, e, h);
    if e.Requests? { NormIdempotent(e.args); }
    forall id | id in s'.store.at
      ensures s'.store.at[id].digest == Fingerprint(h, s'.store.at[id].tool, s'.store.at[id].args)
    {
      if id in s.store.at { StepToken(s, e, h, id); } else { OnlyRequestsAdd(s, e, h, id); }
    }
  }

  lemma OnlyRequestsAdd(s: Sys, e: Event, h: Hash, id: string)
    requires s.store.Valid() && Proper(s, e) && id in Step(s, e, h).store.at && id !in s.store.at
    ensures e.Requests? && id == e.id
    ensures Step(s, e, h).store.at[id]
         == Token(e.agent, e.tool, Fingerprint(h, e.tool, e.args), Norm(e.args), e.now, e.now + MaxReal(1.0, e.ttl),
                  Pending, None)
  {
    if e.Expires? { ExpireDueAt(s.store, s.store.order, e.now, id); }
  }

  lemma {:induction false} RunKeepsSealed(s: Sys, es: seq<Event>, h: Hash)
    requires s.store.Valid() && Sealed(s.store, h) && ProperRun(s, es, h)
    ensures Run(s, es, h).store.Valid() && Sealed(Run(s, es, h).store, h)
    decreases |es|
  {
    if es != [] {
      var front := es[..|es| - 1];
      assert forall i :: 0 <= i < |front| ==> es[..i] == front[..i] && es[i] == front[i];
      RunKeepsSealed(s, front, h);
      StepKeepsSealed(Run(s, front, h), es[|es| - 1], h);
      StepValid(Run(s, front, h), es[|es| - 1], h);
    }
  }

  /** A grant runs the body exactly when the token is live, its agent is known, and its digest is
      that of the call it holds. */
  lemma GrantStartsIff(s: Sys, id: string, reason: Option<string>, agentKnown: bool, now: real, h: Hash)
    requires s.store.Valid()
    ensures var s' := Step(s, Resolves(id, true, reason, agentKnown, now), h);
            s'.started != s.started <==>
              && id in s.store.at && Live(s.store.at[id], now) && agentKnown
              && s.store.at[id].digest == Fingerprint(h, s.store.at[id].tool, s.store.at[id].args)
    ensures var s' := Step(s, Resolves(id, true, reason, agentKnown, now), h);
            s'.started != s.started ==>
              var t := s.store.at[id];
              && s'.started == s.started + [Start(id, t.tool, t.args, now, t.expires)]
              && s'.running == s.running + {id} && id in s'.store.at && s'.store.at[id].state == Granted
  {
    if id in s.store.at {
      var t := s.store.at[id];
      var settled := t.(state := Granted, reason := Or(reason, None));
      assert s.started + [Start(id, t.tool, t.args, now, t.expires)] != s.started;
    }
  }

  /** In a session whose tokens all come from requests, a grant is never refused for its digest. */
  lemma NeverMismatched(s: Sys, es: seq<Event>, h: Hash, id: string, reason: Option<string>, now: real)
    requires Opening(s) && Sealed(s.store, h) && ProperRun(s, es, h)
    ensures var r := Run(s, es, h);
            id in r.store.at && Live(r.store.at[id], now) ==>
              && Step(r, Resolves(id, true, reason, true, now), h).started != r.started
              && DigestMatches(r.store, id, r.store.at[id].tool, r.store.at[id].args, h)
  {
    RunKeepsSealed(s, es, h);
    GrantStartsIff(Run(s, es, h), id, reason, true, now, h);
  }

  // ---- One live token per call ----------------------------------------------------------------------------

  predicate SameLiveCall(a: Token, b: Token, now: real) {
    Live(a, now) && Live(b, now) && ForCall(a, b.agent, b.tool, b.digest)
  }

  ghost predicate OneLive(s: Store, now: real) {
    forall i, j :: i in s.at && j in s.at && SameLiveCall(s.at[i], s.at[j], now) ==> i == j
  }

  lemma {:induction false} FirstLiveFinds(order: seq<string>, at: map<string, Token>, agent: string, tool: string,
                                          digest: string, now: real, id: string)
    ensures var r := FirstLive(order, at, agent, tool, digest, now);
            && (r.Some? ==>
                 && r.value in order && r.value in at && Live(at[r.value], now)
                 && ForCall(at[r.value], agent, tool, digest))
            && (r.None? && id in order && id in at ==> !(Live(at[id], now) && ForCall(at[id], agent, tool, digest)))
    decreases |order|
  {
    if order != [] { FirstLiveFinds(order[1..], at, agent, tool, digest, now, id); }
  }

  lemma RequestKeepsOneLive(s: Store, agent: string, tool: string, args: Json, ttl: real, now: real, id: string,
                            h: Hash)
    requires s.Valid() && OneLive(s, now)
    ensures OneLive(RequestOrJoin(s, agent, tool, args, ttl, now, id, h).0, now)
  {
    var digest := Fingerprint(h, tool, args);
    forall i | i in s.at && FirstLive(s.order, s.at, agent, tool, digest, now).None?
      ensures !(Live(s.at[i], now) && ForCall(s.at[i], agent, tool, digest))
    {
      FirstLiveFinds(s.order, s.at, agent, tool, digest, now, i);
    }
  }

  lemma StepKeepsOneLive(s: Sys, e: Event, h: Hash)
    requires s.store.Valid() && Proper(s, e) && OnTime(s, e) && OneLive(s.store, s.clock)
    ensures OneLive(Step(s, e, h).store, Step(s, e, h).clock)
  {
    var s' := Step(s, e, h);
    if e.Requests? {
      RequestKeepsOneLive(s.store, e.agent, e.tool, e.args, e.ttl, e.now, e.id, h);
    } else {
      forall i | i in s'.store.at
        ensures i in s.store.at && SameToken(s.store.at[i], s'.store.at[i])
        ensures Moves(s.store.at[i].state, s'.store.at[i].state)
      {
        if i !in s.store.at { OnlyRequestsAdd(s, e, h, i); } else { StepToken(s, e, h, i); }
      }
      OneLiveShrinks(s.store, s'.store, s.clock, s'.clock);
    }
  }

  lemma OneLiveShrinks(s: Store, s': Store, now: real, now': real)
    requires OneLive(s, now) && now <= now'
    requires forall i :: i in s'.at ==>
              i in s.at && SameToken(s.at[i], s'.at[i]) && Moves(s.at[i].state, s'.at[i].state)
    ensures OneLive(s', now')
  {
    forall i | i in s'.at && Live(s'.at[i], now') ensures Live(s.at[i], now) {
      assert SameToken(s.at[i], s'.at[i]);
    }
  }

  /** As long as the clock does not run back, no two live tokens wait for the same call. */
  lemma {:induction false} OneLiveTokenPerCall(s: Sys, es: seq<Event>, h: Hash)
    requires s.store.Valid() && OneLive(s.store, s.clock) && ProperRun(s, es, h) && TimelyRun(s, es, h)
    ensures OneLive(Run(s, es, h).store, Run(s, es, h).clock) && Run(s, es, h).store.Valid()
    decreases |es|
  {
    if es != [] {
      var front := es[..|es| - 1];
      assert forall i :: 0 <= i < |front| ==> es[..i] == front[..i] && es[i] == front[i];
      OneLiveTokenPerCall(s, front, h);
      StepKeepsOneLive(Run(s, front, h), es[|es| - 1], h);
      StepValid(Run(s, front, h), es[|es| - 1], h);
    }
  }

  /** A token's deadline lies after time t, but a request made at `now` no longer counts it. */
  predicate PassedSince(x: Token, t: real, now: real) {
    x.state.Pending? && t < x.expires <= now
  }

  /** A token for the call is live at time `now`. */
  ghost predicate WaitsFor(s: Store, agent: string, tool: string, digest: string, now: real) {
    exists i :: i in s.at && Live(s.at[i], now) && ForCall(s.at[i], agent, tool, digest)
  }

  /** A pending token for the call has a deadline after time t but not after `now`. */
  ghost predicate PassedFor(s: Store, agent: string, tool: string, digest: string, t: real, now: real) {
    exists i :: i in s.at && PassedSince(s.at[i], t, now) && ForCall(s.at[i], agent, tool, digest)
  }

  /** A request adds a token exactly when none is live for its call. */
  lemma RequestAddsIff(s: Store, agent: string, tool: string, args: Json, ttl: real, now: real, id: string, h: Hash)
    requires s.Valid()
    ensures RequestOrJoin(s, agent, tool, args, ttl, now, id, h).2
            <==> !WaitsFor(s, agent, tool, Fingerprint(h, tool, args), now)
  {
    var digest := Fingerprint(h, tool, args);
    FirstLiveFinds(s.order, s.at, agent, tool, digest, now, "");
    forall i | i in s.at && FirstLive(s.order, s.at, agent, tool, digest, now).None?
      ensures !(Live(s.at[i], now) && ForCall(s.at[i], agent, tool, digest))
    {
      FirstLiveFinds(s.order, s.at, agent, tool, digest, now, i);
    }
  }

  /** A request makes two tokens for its call live at time t exactly when no token for the call is
      live at the request, the one it then adds is live at t, and the call has a pending one whose
      deadline lies after t but not after the request: the clock reads t again after it has read
      the request's later time. */
  lemma RequestMakesTwinsIff(s: Store, agent: string, tool: string, args: Json, ttl: real, now: real, id: string,
                             h: Hash, t: real)
    requires s.Valid() && id !in s.at && OneLive(s, t)
    ensures var s', digest := RequestOrJoin(s, agent, tool, args, ttl, now, id, h).0, Fingerprint(h, tool, args);
            !OneLive(s', t) <==>
              && !WaitsFor(s, agent, tool, digest, now) && t < now + MaxReal(1.0, ttl)
              && PassedFor(s, agent, tool, digest, t, now)
  {
    var (s', _, added) := RequestOrJoin(s, agent, tool, args, ttl, now, id, h);
    var digest := Fingerprint(h, tool, args);
    RequestAddsIff(s, agent, tool, args, ttl, now, id, h);
    if added {
      assert s'.at == s.at[id := s'.at[id]];
      if i :| i in s.at && Live(s.at[i], t) && ForCall(s.at[i], agent, tool, digest) && Live(s'.at[id], t) {
        assert SameLiveCall(s'.at[i], s'.at[id], t);
        assert PassedSince(s.at[i], t, now);
      } else {
        forall i, j | i in s'.at && j in s'.at && SameLiveCall(s'.at[i], s'.at[j], t) ensures i == j {
          assert i != id && j != id ==> SameLiveCall(s.at[i], s.at[j], t);
        }
      }
    }
  }

  /** A session without tokens. */
  const BEGIN: Sys := Sys(Empty(), {}, [], 0.0)

  /** A run that ends with two live tokens for one call: the first is overdue when the second is
      asked for, and live again when the clock runs back. */
  lemma ClockRunsBackMakesTwins(agent: string, tool: string, args: Json, h: Hash) returns (es: seq<Event>, s: Sys)
    requires Wf(args)
    ensures s == Run(BEGIN, es, h) && ProperRun(BEGIN, es, h) && !OneLive(s.store, s.clock)
  {
    hide Step, OneLive, Proper;
    var first, second := Requests(agent, tool, args, 1.0, "1", 0.0), Requests(agent, tool, args, 1.0, "2", 2.0);
    var t1 := FirstAsked(first, h);
    var t2 := AskedAgain(Step(BEGIN, first, h), second, t1, h);
    s := BackAgain(Step(Step(BEGIN, first, h), second, h), t1, t2, h);
    es := [first, second, Expires(0.0)];
    Three(BEGIN, first, second, Expires(0.0), h);
    ProperThree(BEGIN, es, h);
  }

  lemma ProperThree(s: Sys, es: seq<Event>, h: Hash)
    requires |es| == 3 && Proper(s, es[0])
    requires Proper(Run(s, es[..1], h), es[1]) && es[2].Expires?
    ensures ProperRun(s, es, h)
  {
    hide Step;
    assert Proper(Run(s, es[..2], h), es[2]);
    assert Run(s, es[..0], h) == s;
  }

  /** The first request of a session. */
  lemma FirstAsked(e: Event, h: Hash) returns (t: Token)
    requires e.Requests? && Wf(e.args)
    ensures Proper(BEGIN, e)
    ensures t == Token(e.agent, e.tool, Fingerprint(h, e.tool, e.args), Norm(e.args), e.now,
                       e.now + MaxReal(1.0, e.ttl), Pending, None)
    ensures Step(BEGIN, e, h) == Sys(Table([e.id], map[e.id := t]), {}, [], e.now)
  {
    t := Token(e.agent, e.tool, Fingerprint(h, e.tool, e.args), Norm(e.args), e.now, e.now + MaxReal(1.0, e.ttl),
               Pending, None);
  }

  /** The second one for the same call, when the first token is overdue. */
  lemma AskedAgain(s: Sys, e: Event, t: Token, h: Hash) returns (t': Token)
    requires e.Requests? && Wf(e.args) && e.id == "2" && e.now >= t.expires
    requires s == Sys(Table(["1"], map["1" := t]), {}, [], s.clock)
    ensures Proper(s, e)
    ensures t' == Token(e.agent, e.tool, Fingerprint(h, e.tool, e.args), Norm(e.args), e.now,
                        e.now + MaxReal(1.0, e.ttl), Pending, None)
    ensures Step(s, e, h) == Sys(Table(["1", "2"], map["1" := t, "2" := t']), {}, [], e.now)
  {
    hide Norm, MaxReal, Fingerprint;
    t' := Token(e.agent, e.tool, Fingerprint(h, e.tool, e.args), Norm(e.args), e.now, e.now + MaxReal(1.0, e.ttl),
                Pending, None);
    assert ["1"][1..] == [] && FirstLive(["1"], s.store.at, e.agent, e.tool, t'.digest, e.now) == None;
    assert ["1"] + ["2"] == ["1", "2"];
  }

  lemma BackAgain(s: Sys, t1: Token, t2: Token, h: Hash) returns (s': Sys)
    requires s.store == Table(["1", "2"], map["1" := t1, "2" := t2])
    requires SameLiveCall(t1, t2, 0.0)
    ensures s' == Step(s, Expires(0.0), h) && !OneLive(s'.store, s'.clock)
  {
    hide ExpireDue, Distinct;
    assert s.store.Valid() by { assert Distinct(["1", "2"]) by { TwoDistinct(); } }
    ExpireDueAt(s.store, s.store.order, 0.0, "1");
    ExpireDueAt(s.store, s.store.order, 0.0, "2");
    s' := Step(s, Expires(0.0), h);
    assert SameLiveCall(s'.store.at["1"], s'.store.at["2"], 0.0);
  }

  lemma TwoDistinct()
    ensures Distinct(["1", "2"])
  {}

  lemma Three(s: Sys, a: Event, b: Event, c: Event, h: Hash)
    ensures Run(s, [a, b, c][..0], h) == s
    ensures Run(s, [a, b, c][..1], h) == Step(s, a, h)
    ensures Run(s, [a, b, c][..2], h) == Step(Step(s, a, h), b, h)
    ensures Run(s, [a, b, c], h) == Step(Step(Step(s, a, h), b, h), c, h)
  {
    hide Step;
    var es := [a, b, c];
    assert es[..3] == es && es[..2][..1] == es[..1] && es[..1][..0] == es[..0] == [];
    assert es[..1] == [a] && es[..2] == [a, b];
    assert Run(s, es[..1], h) == Step(s, a, h);
    assert Run(s, es[..2], h) == Step(Run(s, es[..1], h), b, h);
  }

  // ---- What a grant runs --------------------------------------------------------------------------------

  predicate WrittenText(s: Str) {
    BACKSLASH !in s && !(|s| > 1 && s[|s| - 1] == SLASH)
  }

  /** No text of the arguments has a backslash, or a slash at its end unless it is the slash alone. */
  predicate AsWritten(v: Json) {
    match v
    case Text(s) => WrittenText(s)
    case Arr(items) => forall i :: 0 <= i < |items| ==> AsWritten(items[i])
    case Obj(fields) => forall i :: 0 <= i < |fields| ==> AsWritten(fields[i].value)
    case _ => true
  }

  lemma TextStaysIff(s: Str)
    ensures NormText(s) == s <==> WrittenText(s)
  {
    NormTextShape(s);
    if BACKSLASH !in s { assert Slashed(s) == s; }
  }

  /** The normal form of arguments says the same as they do, up to the order of keys, exactly when
      they are written that way. */
  lemma {:induction false} NormSaysTheSameIff(v: Json)
    requires Wf(v)
    ensures Same(Norm(v), v) <==> AsWritten(v)
    decreases v
  {
    match v {
      case Text(s) => TextStaysIff(s);
      case Arr(items) =>
        forall i | 0 <= i < |items| ensures Same(NormAll(items)[i], items[i]) <==> AsWritten(items[i]) {
          NormAllAt(items, i);
          NormSaysTheSameIff(items[i]);
        }
      case Obj(fields) =>
        forall i | 0 <= i < |fields|
          ensures NormFields(fields)[i].key == fields[i].key
          ensures Same(NormFields(fields)[i].value, fields[i].value) <==> AsWritten(fields[i].value)
        {
          NormFieldsAt(fields, i);
          NormSaysTheSameIff(fields[i].value);
        }
        FieldsSayTheSameIff(fields, NormFields(fields));
      case _ =>
    }
  }

  lemma FieldsSayTheSameIff(f: seq<Entry<Json>>, g: seq<Entry<Json>>)
    requires UniqueKeys(f) && |g| == |f|
    requires forall i :: 0 <= i < |f| ==> g[i].key == f[i].key
    ensures SameFields(SortByKey(g), f) <==> forall i :: 0 <= i < |f| ==> Same(g[i].value, f[i].value)
  {
    hide Same, SortByKey, SameFields, Sorted;
    var r := SortByKey(g);
    SortByKeyCorrect(g);
    if SameFields(r, f) {
      forall i | 0 <= i < |f| ensures Same(g[i].value, f[i].value) { FieldSaysTheSame(f, g, r, i); }
    } else if forall i :: 0 <= i < |f| ==> Same(g[i].value, f[i].value) {
      FieldsMatch(f, g, r);
    }
  }

  lemma FieldSaysTheSame(f: seq<Entry<Json>>, g: seq<Entry<Json>>, r: seq<Entry<Json>>, i: nat)
    requires UniqueKeys(f) && |g| == |f| && i < |f| && SameFields(r, f)
    requires forall i :: 0 <= i < |f| ==> g[i].key == f[i].key
    requires forall d :: d in r ==> d in g
    ensures Same(g[i].value, f[i].value)
  {
    hide Same, SameFields;
    var d := PartnerOf(r, f[i], f);
    var j :| 0 <= j < |g| && g[j] == d;
    assert f[j].key == f[i].key;
  }

  lemma PartnerOf(r: seq<Entry<Json>>, e: Entry<Json>, f: seq<Entry<Json>>) returns (d: Entry<Json>)
    requires SameFields(r, f) && e in f
    ensures d in r && d.key == e.key && Same(d.value, e.value)
  {
    hide Same, Right;
    assert Left(r, e, f);
    d :| d in r && d.key == e.key && Same(d.value, e.value);
  }

  lemma FieldsMatch(f: seq<Entry<Json>>, g: seq<Entry<Json>>, r: seq<Entry<Json>>)
    requires |g| == |f| && forall i :: 0 <= i < |f| ==> g[i].key == f[i].key && Same(g[i].value, f[i].value)
    requires forall d :: d in r <==> d in g
    ensures SameFields(r, f)
  {
    hide Same;
    forall d | d in r ensures Right(r, d, f) {
      var j :| 0 <= j < |g| && g[j] == d;
      assert f[j] in f;
    }
    forall e | e in f ensures Left(r, e, f) {
      var j :| 0 <= j < |f| && f[j] == e;
      assert g[j] in g;
    }
  }

  /** The call that a token was made for. */
  ghost predicate AskedFor(es: seq<Event>, i: nat, id: string, t: Token) {
    i < |es| && es[i].Requests? && es[i].id == id && es[i].agent == t.agent && es[i].tool == t.tool
        && Norm(es[i].args) == t.args
  }

  lemma {:induction false} TokenWasAskedFor(es: seq<Event>, h: Hash, id: string) returns (i: nat)
    requires ProperRun(BEGIN, es, h) && id in Run(BEGIN, es, h).store.at
    ensures AskedFor(es, i, id, Run(BEGIN, es, h).store.at[id])
    decreases |es|
  {
    hide Step, Proper, AskedFor, Run, ProperRun, OnceInv;
    RunEnds(BEGIN, es, h);
    i := 0;
    if es != [] {
      var front, e := es[..|es| - 1], es[|es| - 1];
      assert es == front + [e];
      var s := Run(BEGIN, front, h);
      BeginRunIsValid(front, h);
      if id in s.store.at {
        i := TokenWasAskedFor(front, h, id);
        AskedForStill(front, i, s, e, h, id);
      } else {
        i := |es| - 1;
        AskedForNow(es, s, e, h, id);
      }
    }
  }

  lemma BeginRunIsValid(es: seq<Event>, h: Hash)
    requires ProperRun(BEGIN, es, h)
    ensures Run(BEGIN, es, h).store.Valid()
  {
    hide Run, ProperRun;
    RunKeepsOnce(BEGIN, es, h);
  }

  lemma RunEnds(s: Sys, es: seq<Event>, h: Hash)
    ensures es == [] ==> Run(s, es, h) == s
    ensures es != [] ==> var front, e := es[..|es| - 1], es[|es| - 1];
                         && Run(s, es, h) == Step(Run(s, front, h), e, h)
                         && (ProperRun(s, es, h) ==> ProperRun(s, front, h) && Proper(Run(s, front, h), e))
  {
    hide Step, Proper;
    if es != [] {
      var front := es[..|es| - 1];
      assert forall i :: 0 <= i < |front| ==> es[..i] == front[..i] && es[i] == front[i];
    }
  }

  lemma AskedForStill(es: seq<Event>, i: nat, s: Sys, e: Event, h: Hash, id: string)
    requires s.store.Valid() && Proper(s, e) && id in s.store.at && AskedFor(es, i, id, s.store.at[id])
    ensures id in Step(s, e, h).store.at && AskedFor(es + [e], i, id, Step(s, e, h).store.at[id])
  {
    hide Step;
    StepToken(s, e, h, id);
  }

  lemma AskedForNow(es: seq<Event>, s: Sys, e: Event, h: Hash, id: string)
    requires s.store.Valid() && Proper(s, e) && id !in s.store.at && id in Step(s, e, h).store.at
    requires es != [] && es[|es| - 1] == e
    ensures AskedFor(es, |es| - 1, id, Step(s, e, h).store.at[id])
  {
    hide Step;
    OnlyRequestsAdd(s, e, h, id);
  }

  /** Over every run, a body that was started runs a call that was asked for, by its tool, and the
      arguments say the same as the ones asked for exactly when those have no backslash and no
      slash at a text's end. */
  lemma StartRunsWhatWasAskedIff(es: seq<Event>, h: Hash, k: nat) returns (i: nat)
    requires ProperRun(BEGIN, es, h) && k < |Run(BEGIN, es, h).started|
    ensures var e := Run(BEGIN, es, h).started[k];
            && i < |es| && es[i].Requests? && es[i].id == e.id && es[i].tool == e.tool
            && (Same(e.args, es[i].args) <==> AsWritten(es[i].args))
  {
    var s := Run(BEGIN, es, h);
    StartedAtMostOnce(BEGIN, es, h);
    assert Honest(s, s.started[k]);
    i := TokenWasAskedFor(es, h, s.started[k].id);
    assert Proper(Run(BEGIN, es[..i], h), es[i]);
    NormSaysTheSameIff(es[i].args);
  }

  lemma GrantRuns(s: Sys, t: Token, h: Hash, args: Json) returns (s': Sys)
    requires s.store == Table(["1"], map["1" := t]) && Live(t, 0.5) && s.started == []
    requires Wf(args) && t.args == Norm(args) && t.digest == Fingerprint(h, t.tool, args)
    ensures s' == Step(s, Resolves("1", true, None, true, 0.5), h)
    ensures |s'.started| == 1 && s'.started[0].tool == t.tool && s'.started[0].args == t.args
  {
    NormIdempotent(args);
    hide Norm;
    s' := Step(s, Resolves("1", true, None, true, 0.5), h);
  }

  lemma Two(s: Sys, a: Event, b: Event, h: Hash)
    ensures Run(s, [a, b][..0], h) == s
    ensures Run(s, [a, b][..1], h) == Step(s, a, h)
    ensures Run(s, [a, b], h) == Step(Step(s, a, h), b, h)
  {
    hide Step;
    var es := [a, b];
    assert es[..2] == es && es[..1][..0] == es[..0] == [] && es[..1] == [a];
    assert Run(s, es[..1], h) == Step(s, a, h);
  }

  /** Every call that is granted in time runs, in its normal form. */
  lemma GrantedCallRuns(agent: string, tool: string, args: Json, h: Hash) returns (es: seq<Event>, s: Sys)
    requires Wf(args)
    ensures s == Run(BEGIN, es, h) && ProperRun(BEGIN, es, h) && TimelyRun(BEGIN, es, h)
    ensures |es| == 2 && es[0] == Requests(agent, tool, args, 1.0, "1", 0.0)
    ensures |s.started| == 1 && s.started[0].tool == tool && s.started[0].args == Norm(args)
  {
    var ask, grant := Requests(agent, tool, args, 1.0, "1", 0.0), Resolves("1", true, None, true, 0.5);
    es := [ask, grant];
    var t := FirstAsked(ask, h);
    var s1 := Step(BEGIN, ask, h);
    s := GrantRuns(s1, t, h, args);
    Two(BEGIN, ask, grant, h);
    hide Step;
    assert forall i :: 0 <= i < 2 ==> Proper(Run(BEGIN, es[..i], h), es[i]) && OnTime(Run(BEGIN, es[..i], h), es[i]);
  }

  /** Whoever asks for a text with a backslash and is granted it gets another text run. */
  lemma BackslashRunsChanged(agent: string, tool: string, key: Str, text: Str, h: Hash) returns (es: seq<Event>, s: Sys)
    requires BACKSLASH in text
    ensures s == Run(BEGIN, es, h) && ProperRun(BEGIN, es, h) && TimelyRun(BEGIN, es, h)
    ensures |es| == 2 && es[0].Requests? && es[0].args == Obj([Entry(key, Text(text))])
    ensures |s.started| == 1 && !Same(s.started[0].args, es[0].args)
  {
    var args := Obj([Entry(key, Text(text))]);
    assert args.fields[0].value == Text(text) && !AsWritten(args.fields[0].value);
    es, s := GrantedCallRuns(agent, tool, args, h);
    NormSaysTheSameIff(args);
  }

  // ---- Checkpoints -------------------------------------------------------------------------------------------

  /** A record of approvals.json; a missing time is 0. */
  datatype Raw =
    | Malformed
    | Raw(id: string, agent: string, tool: string, digest: string, args: Json,
          created: real, expires: real, reason: Option<string>)

  function AsRaw(id: string, t: Token): Raw {
    Raw(id, t.agent, t.tool, t.digest, t.args, t.created, t.expires, t.reason)
  }

  function Export(ids: seq<string>, at: map<string, Token>, now: real): seq<Raw>
    decreases |ids|
  {
    if ids == [] then []
    else
      var id := ids[|ids| - 1];
      Export(ids[..|ids| - 1], at, now) + if id in at && Live(at[id], now) then [AsRaw(id, at[id])] else []
  }

  /** `x or now`. */
  function OrNow(x: real, now: real): real {
    if x == 0.0 then now else x
  }

  /** The token a record stands for when it is read at `now`. */
  function Restored(r: Raw, now: real): Token
    requires r.Raw?
  {
    var t := Token(r.agent, r.tool, r.digest, r.args, OrNow(r.created, now), OrNow(r.expires, now), Pending, r.reason);
    if t.expires <= now then Overdue(t) else t
  }

  /** The new tokens, and the ids still alive and those expired on import. */
  function Import(s: Store, records: seq<Raw>, now: real): (Store, seq<string>, seq<string>)
    decreases |records|
  {
    if records == [] then (s, [], [])
    else
      var (before, alive, expired) := Import(s, records[..|records| - 1], now);
      var r := records[|records| - 1];
      if r.Malformed? then (before, alive, expired)
      else
        var t := Restored(r, now);
        if t.state.Expired? then (before.Put(r.id, t), alive, expired + [r.id])
        else (before.Put(r.id, t), alive + [r.id], expired)
  }

  lemma ImportSnoc(s: Store, records: seq<Raw>, r: Raw, now: real)
    requires r.Raw?
    ensures Import(s, records + [r], now).0 == Import(s, records, now).0.Put(r.id, Restored(r, now))
  {
    assert (records + [r])[..|records|] == records;
  }

  lemma {:induction false} ImportExport(ids: seq<string>, at: map<string, Token>, saved: real, now: real)
    requires Distinct(ids) && forall id :: id in ids ==> id in at
    ensures var s := Import(Empty(), Export(ids, at, saved), now).0;
            && s.Valid()
            && (forall id :: id in s.at <==> id in ids && Live(at[id], saved))
            && (forall id :: id in s.at ==> s.at[id] == Restored(AsRaw(id, at[id]), now))
    decreases |ids|
  {
    if ids != [] {
      var front, id := ids[..|ids| - 1], ids[|ids| - 1];
      assert ids == front + [id];
      ImportExport(front, at, saved, now);
      var records := Export(front, at, saved);
      var s := Import(Empty(), records, now).0;
      if Live(at[id], saved) {
        ImportSnoc(Empty(), records, AsRaw(id, at[id]), now);
        s.PutValid(id, Restored(AsRaw(id, at[id]), now));
      } else {
        assert Export(ids, at, saved) == records;
      }
    }
  }

  /** The session that starts from what another one saved. */
  function Resumed(saved: Store, at: real, now: real): Sys {
    Sys(Import(Empty(), Export(saved.order, saved.at, at), now).0, {}, [], now)
  }

  /** Saving and reading back keeps exactly the live tokens, under their ids and for their calls;
      those due in the meantime come back expired. The resumed session has the same guarantees. */
  lemma ResumeIsExact(s: Sys, at: real, now: real, h: Hash, id: string)
    requires s.store.Valid() && OneLive(s.store, s.clock) && s.clock <= at <= now && 0.0 <= now
    ensures var r := Resumed(s.store, at, now);
            && Opening(r) && OneLive(r.store, r.clock)
            && (Sealed(s.store, h) ==> Sealed(r.store, h))
            && (id in r.store.at <==> id in s.store.at && Live(s.store.at[id], at))
            && (id in r.store.at ==>
                  r.store.at[id].state == if s.store.at[id].expires > now then Pending else Expired)
  {
    hide Import, Export, OneLive, Fingerprint;
    ImportExport(s.store.order, s.store.at, at, now);
    ResumedOneLive(s.store, Resumed(s.store, at, now).store, s.clock, now);
  }

  lemma ResumedOneLive(s: Store, r: Store, then_: real, now: real)
    requires OneLive(s, then_) && then_ <= now
    requires forall id :: id in r.at ==>
               && id in s.at && s.at[id].state.Pending?
               && ForCall(r.at[id], s.at[id].agent, s.at[id].tool, s.at[id].digest)
               && (r.at[id].state.Pending? ==> s.at[id].expires > now)
    ensures OneLive(r, now)
  {
    forall i, j | i in r.at && j in r.at && SameLiveCall(r.at[i], r.at[j], now) ensures i == j {
      assert SameLiveCall(s.at[i], s.at[j], then_);
    }
  }

  /** After a crash, a session resumed from what was saved in state s lets a grant at time t start
      the body of token id exactly when the token was still live at the save and its deadline has
      passed neither at the resume nor at t. So a body that was started after the save may run
      again, and one that was granted before the save never does. */
  lemma RunsAfterResumeIff(s: Sys, at: real, now: real, t: real, id: string, reason: Option<string>, h: Hash)
    requires s.store.Valid() && Sealed(s.store, h) && 0.0 <= now
    ensures var r := Resumed(s.store, at, now);
            Step(r, Resolves(id, true, reason, true, t), h).started != [] <==>
              id in s.store.at && Live(s.store.at[id], at) && Live(s.store.at[id], now) && Live(s.store.at[id], t)
  {
    hide Step, Import, Export, Fingerprint, Distinct;
    ImportExport(s.store.order, s.store.at, at, now);
    GrantStartsIff(Resumed(s.store, at, now), id, reason, true, t, h);
  }

  /** Nor does a save and a resume bring a denied token back: the resumed session does not know its
      id, and starts nothing under it in any run that does not ask for a token of that id anew. */
  lemma {:induction false} DeniedIsNotResumed(s: Sys, at: real, now: real, es: seq<Event>, h: Hash, id: string)
    requires s.store.Valid() && id in s.store.at && s.store.at[id].state == Denied
    requires forall e :: e in es ==> !(e.Requests? && e.id == id)
    requires ProperRun(Resumed(s.store, at, now), es, h)
    ensures var r := Run(Resumed(s.store, at, now), es, h);
            r.store.Valid() && id !in r.store.at && !IsStarted(r, id)
    decreases |es|
  {
    var from := Resumed(s.store, at, now);
    if es == [] {
      ImportExport(s.store.order, s.store.at, at, now);
    } else {
      var front, e := es[..|es| - 1], es[|es| - 1];
      assert forall i :: 0 <= i < |front| ==> es[..i] == front[..i] && es[i] == front[i];
      assert e in es && forall x :: x in front ==> x in es;
      DeniedIsNotResumed(s, at, now, front, h, id);
      UnknownStays(Run(from, front, h), e, h, id);
    }
  }

  lemma UnknownStays(s: Sys, e: Event, h: Hash, id: string)
    requires s.store.Valid() && id !in s.store.at && Proper(s, e) && !(e.Requests? && e.id == id)
    requires !IsStarted(s, id)
    ensures var r := Step(s, e, h);
            r.store.Valid() && id !in r.store.at && !IsStarted(r, id)
  {
    StepValid(s, e, h);
    if id in Step(s, e, h).store.at { OnlyRequestsAdd(s, e, h, id); }
  }

  /** A token asked for, saved, granted and run, then run again after a crash. */
  lemma RunsTwiceAcrossACrash(h: Hash) returns (s: Sys, grant: Event)
    ensures s == Step(BEGIN, Requests("agent", "run_command", Obj([]), 9.0, "id", 1.0), h)
    ensures Opening(s) && Sealed(s.store, h) && grant.Resolves? && grant.now >= s.clock
    ensures Step(s, grant, h).started != [] && Step(Resumed(s.store, s.clock, grant.now), grant, h).started != []
  {
    hide Step, Fingerprint, Resumed, Sealed, Opening;
    var ask := Requests("agent", "run_command", Obj([]), 9.0, "id", 1.0);
    var t := OneAsked(ask, h);
    s, grant := Step(BEGIN, ask, h), Resolves("id", true, None, true, 2.0);
    SealedGrantStarts(s, "id", None, 2.0, h);
    RunsAfterResumeIff(s, 1.0, 2.0, 2.0, "id", None, h);
  }

  lemma OneAsked(ask: Event, h: Hash) returns (t: Token)
    requires ask.Requests? && Wf(ask.args)
    ensures var s := Step(BEGIN, ask, h);
            && s.store.Valid() && Opening(s) && Sealed(s.store, h) && s.clock == ask.now && s.started == []
            && ask.id in s.store.at && s.store.at[ask.id] == t
    ensures t.state.Pending? && t.expires == ask.now + MaxReal(1.0, ask.ttl)
  {
    t := FirstAsked(ask, h);
    hide Step;
    assert BEGIN.store.Valid() && Sealed(BEGIN.store, h);
    StepKeepsSealed(BEGIN, ask, h);
    StepValid(BEGIN, ask, h);
  }

  lemma SealedGrantStarts(s: Sys, id: string, reason: Option<string>, now: real, h: Hash)
    requires s.store.Valid() && Sealed(s.store, h) && id in s.store.at && Live(s.store.at[id], now) && s.started == []
    ensures Step(s, Resolves(id, true, reason, true, now), h).started != []
  {
    hide Step;
    GrantStartsIff(s, id, reason, true, now, h);
  }

  /** Reading a record into a session that has tokens already: the record replaces the token under
      its id, so an executed one can be granted and run again exactly when the record is live. */
  lemma ImportReopensIff(s: Sys, r: Raw, now: real, h: Hash)
    requires OnceInv(s) && r.Raw? && IsStarted(s, r.id)
    requires r.digest == Fingerprint(h, r.tool, r.args)
    ensures var s' := s.(store := Import(s.store, [r], now).0);
            Step(s', Resolves(r.id, true, None, true, now), h).started != s.started <==> OrNow(r.expires, now) > now
  {
    ImportedGrantIff(s, s.(store := Import(s.store, [r], now).0), r, now, h);
  }

  lemma ImportedGrantIff(s: Sys, s': Sys, r: Raw, now: real, h: Hash)
    requires s.store.Valid() && r.Raw? && r.digest == Fingerprint(h, r.tool, r.args)
    requires s' == s.(store := Import(s.store, [r], now).0)
    ensures Step(s', Resolves(r.id, true, None, true, now), h).started != s'.started <==> OrNow(r.expires, now) > now
  {
    hide Step;
    assert [] + [r] == [r];
    ImportSnoc(s.store, [], r, now);
    s.store.PutValid(r.id, Restored(r, now));
    GrantStartsIff(s', r.id, None, true, now, h);
  }
}
