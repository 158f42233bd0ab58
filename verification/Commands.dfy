/** The command bus of the Web BFF (fronts/web/src/bff/cmd.ts): sending, result
    correlation and failure judgement, as functions on values and as the class
    that does it in place.

    A command id `web-<n>` is the number n. `answered` holds the commands whose
    promise has been settled with a result but whose handler has not resumed yet:
    the verdict of cmd.ts:367-371 is applied in a later microtask, and other
    lines of the same chunk may be handled before it. */
module Commands {
  import opened Tables
  import opened Cards

  // ---- Judgement (08 section 6.3) ------------------------------------------------

  datatype Field = Absent | Null | Bool(b: bool) | Text(s: string) | Other

  datatype CoreResult = CoreResult(ok: Field, queued: Field, skipped: Field, error: Field, reason: Field)

  predicate Failed(r: CoreResult) {
    || r.ok == Bool(false)
    || r.queued == Bool(false)
    || r.skipped == Bool(false)
    || !(r.error.Absent? || r.error.Null?)
  }

  function Failure(r: CoreResult): Option<string> {
    if r.error.Text? then Some(r.error.s)
    else if r.reason.Text? then Some(r.reason.s)
    else if Failed(r) then Some("rejected")
    else None
  }

  const NO_PENDING := "no pending question"

  /** The verdict drops the card; otherwise it makes the card answerable again. */
  predicate Drops(r: CoreResult) {
    !Failed(r) || Failure(r) == Some(NO_PENDING)
  }

  // ---- The bus as a value ------------------------------------------------------------

  type Keyed = Table<nat, Option<Key>>

  datatype Answer = Answer(key: Option<Key>, result: CoreResult)

  datatype Bus = Bus(
    next: nat,
    inflight: Keyed,
    answered: Table<nat, Answer>,
    unknown: Keyed,
    expired: Keyed,
    owner: map<Key, nat>)

  const FRESH_BUS := Bus(1, Empty(), Empty(), Empty(), Empty(), map[])

  ghost predicate TablesValid(b: Bus) {
    b.inflight.Valid() && b.answered.Valid() && b.unknown.Valid() && b.expired.Valid()
  }

  predicate Owns(b: Bus, key: Option<Key>, id: nat) {
    key.Some? && key.value in b.owner && b.owner[key.value] == id
  }

  function WithoutOwner(b: Bus, key: Key): Bus {
    b.(owner := b.owner - {key})
  }

  /** settleKey: the new bus and cards, and false when a newer command owns the key. */
  function SettleKey(b: Bus, c: Cards, key: Option<Key>, id: nat, r: CoreResult): (Bus, Cards, bool) {
    if key.None? then (b, c, true)
    else if !Owns(b, key, id) then (b, c, false)
    else (WithoutOwner(b, key.value),
          if Drops(r) then Release(c, key.value) else SetResolving(c, key.value, false),
          true)
  }

  function Tombstone(b: Bus, id: nat, key: Option<Key>, maxUnknown: nat): Bus
    requires b.expired.Valid()
  {
    var grown := b.expired.Put(id, key);
    b.expired.PutValid(id, key);
    if |grown.order| <= maxUnknown then b.(expired := grown)
    else
      var oldest := grown.order[0];
      var oldKey := grown.at[oldest];
      var trimmed := b.(expired := grown.Remove(oldest));
      if Owns(b, oldKey, oldest) then WithoutOwner(trimmed, oldKey.value) else trimmed
  }

  /** The first keyless entry, in insertion order. */
  function FirstKeyless(order: seq<nat>, at: map<nat, Option<Key>>): (r: Option<nat>)
    ensures r.Some? ==> r.value in order && r.value in at && at[r.value] == None
  {
    if order == [] then None
    else if order[0] in at && at[order[0]] == None then Some(order[0])
    else FirstKeyless(order[1..], at)
  }

  /** The first keyless command, if any, becomes a tombstone. */
  function Evicted(b: Bus, maxUnknown: nat): Bus
    requires b.expired.Valid()
  {
    match FirstKeyless(b.unknown.order, b.unknown.at)
    case None => b
    case Some(v) => Tombstone(b.(unknown := b.unknown.Remove(v)), v, None, maxUnknown)
  }

  function RememberUnknown(b: Bus, id: nat, key: Option<Key>, maxUnknown: nat): Bus
    requires b.expired.Valid()
  {
    var room := if |b.unknown.order| >= maxUnknown then Evicted(b, maxUnknown) else b;
    room.(unknown := room.unknown.Put(id, key))
  }

  /** A command line as `handle` sees it once its fields are picked. */
  datatype Command = Command(admitted: bool, schemaOk: bool, answers: Answers, key: Option<Key>, revision: Option<int>)
  datatype Answers = Nothing | AQuestion | AnApproval

  datatype Outcome =
    | NotAdmitted               // 409 not_controller or 400 unknown_command, no id taken
    | SchemaInvalid
    | Refused(problem: Problem)
    | Unavailable
    | Waiting(id: nat)

  /** Step 3: the schema, a key where one is needed, an integer revision for approvals. */
  predicate WellFormed(cmd: Command) {
    && cmd.schemaOk
    && (cmd.answers.Nothing? ==> cmd.key.None?)
    && (cmd.answers.AQuestion? ==> cmd.key.Some? && cmd.key.value.Q?)
    && (cmd.answers.AnApproval? ==> cmd.key.Some? && cmd.key.value.A? && cmd.revision.Some?)
  }

  function Judge(b: Bus, c: Cards, cmd: Command, alive: bool, accepted: bool): Outcome {
    if !cmd.admitted then NotAdmitted
    else if !WellFormed(cmd) then SchemaInvalid
    else if cmd.key.Some? && Check(c, cmd.key.value, cmd.revision).Some?
        then Refused(Check(c, cmd.key.value, cmd.revision).value)
    else if !alive || !accepted then Unavailable
    else Waiting(b.next)
  }

  /** Steps 0 to 7, which run without an await (cmd.ts:296-366). */
  function Send(b: Bus, c: Cards, cmd: Command, alive: bool, accepted: bool): (Bus, Cards) {
    match Judge(b, c, cmd, alive, accepted)
    case NotAdmitted => (b, c)
    case Waiting(id) =>
      var sent := b.(next := id + 1, inflight := b.inflight.Put(id, cmd.key));
      if cmd.key.None? then (sent, c)
      else (sent.(owner := sent.owner[cmd.key.value := id]), SetResolving(c, cmd.key.value, true))
    case _ => (b.(next := b.next + 1), c)
  }

  /** The request timer of command `id`. */
  function TimedOut(b: Bus, id: nat, maxUnknown: nat): Bus
    requires b.expired.Valid() && id in b.inflight.at
  {
    RememberUnknown(b.(inflight := b.inflight.Remove(id)), id, b.inflight.at[id], maxUnknown)
  }

  /** The unknown timer of command `id`. */
  function UnknownExpired(b: Bus, c: Cards, id: nat, maxUnknown: nat): (Bus, Cards)
    requires b.expired.Valid() && id in b.unknown.at
  {
    var key := b.unknown.at[id];
    var moved := Tombstone(b.(unknown := b.unknown.Remove(id)), id, key, maxUnknown);
    (moved, if Owns(moved, key, id) then SetResolving(c, key.value, false) else c)
  }

  /** The id on a result line: `web-<n>`, `?`, `web-shutdown`, or anything else. */
  datatype ResultId = Web(n: nat) | Undecoded | Shutdown | Foreign(text: string)

  datatype Report =
    | Silent
    | LateResult(id: nat, failed: bool, warn: bool, superseded: bool)
    | Orphan

  /** The waiting command a result line belongs to. */
  function WaiterOf(b: Bus, rid: ResultId): Option<nat> {
    match rid
    case Web(n) => if n in b.inflight.at then Some(n) else None
    case Undecoded => if |b.inflight.order| == 1 then Some(b.inflight.order[0]) else None
    case _ => None
  }

  function OnResult(b: Bus, c: Cards, rid: ResultId, r: CoreResult): (Bus, Cards, Report)
    requires TablesValid(b)
  {
    var waiter := WaiterOf(b, rid);
    if waiter.Some? then
      var id := waiter.value;
      assert id in b.inflight.order;
      (b.(inflight := b.inflight.Remove(id), answered := b.answered.Put(id, Answer(b.inflight.at[id], r))), c, Silent)
    else if rid.Web? && rid.n in b.unknown.at then
      var (b', c', mine) := SettleKey(b.(unknown := b.unknown.Remove(rid.n)), c, b.unknown.at[rid.n], rid.n, r);
      (b', c', LateResult(rid.n, Failed(r), Failed(r) || !mine, !mine))
    else if rid.Web? && rid.n in b.expired.at then
      var (b', c', mine) := SettleKey(b.(expired := b.expired.Remove(rid.n)), c, b.expired.at[rid.n], rid.n, r);
      (b', c', LateResult(rid.n, Failed(r), true, !mine))
    else
      (b, c, if rid.Shutdown? then Silent else Orphan)
  }

  /** The handler of an answered command resumes and applies the verdict (cmd.ts:367-371). */
  function Resume(b: Bus, c: Cards, id: nat): (Bus, Cards)
    requires id in b.answered.at
  {
    var a := b.answered.at[id];
    var (b', c', _) := SettleKey(b.(answered := b.answered.Remove(id)), c, a.key, id, a.result);
    (b', c')
  }

  /** Reopen every key that one of `ids` still owns. */
  function Reopen(b: Bus, c: Cards, ids: seq<nat>, keys: map<nat, Option<Key>>): Cards
    decreases |ids|
  {
    if ids == [] then c
    else
      var id := ids[0];
      var c' := if id in keys && Owns(b, keys[id], id) then SetResolving(c, keys[id].value, false) else c;
      Reopen(b, c', ids[1..], keys)
  }

  function ChildExit(b: Bus, c: Cards): (Bus, Cards) {
    var c1 := Reopen(b, c, b.inflight.order, b.inflight.at);
    var c2 := Reopen(b, c1, b.unknown.order, b.unknown.at);
    (b.(inflight := Empty(), unknown := Empty(), expired := Empty(), owner := map[]), c2)
  }

  lemma {:induction false} ReopenAppend(b: Bus, c: Cards, ids: seq<nat>, keys: map<nat, Option<Key>>, id: nat)
    ensures Reopen(b, c, ids + [id], keys) == Reopen(b, Reopen(b, c, ids, keys), [id], keys)
    decreases |ids|
  {
    if ids == [] {
      assert [] + [id] == [id];
    } else {
      assert (ids + [id])[1..] == ids[1..] + [id];
      var first := ids[0];
      var c' := if first in keys && Owns(b, keys[first], first) then SetResolving(c, keys[first].value, false) else c;
      ReopenAppend(b, c', ids[1..], keys, id);
    }
  }

  lemma KeylessFrom(order: seq<nat>, at: map<nat, Option<Key>>, i: nat)
    requires i <= |order|
    ensures FirstKeyless(order[i..], at)
            == if i == |order| then None
               else if order[i] in at && at[order[i]] == None then Some(order[i])
               else FirstKeyless(order[i + 1..], at)
    ensures order[0..] == order
  {
    if i < |order| { assert order[i..][1..] == order[i + 1..]; }
  }

  // ---- The bus in place ----------------------------------------------------------------

  class CommandBus {
    const state: BffState
    const maxUnknown: nat
    var next: nat
    var inflight: Keyed
    var answered: Table<nat, Answer>
    var unknown: Keyed
    var expired: Keyed
    var owner: map<Key, nat>

    function View(): Bus
      reads this
    {
      Bus(next, inflight, answered, unknown, expired, owner)
    }

    ghost predicate Valid()
      reads this
    {
      TablesValid(View())
    }

    constructor (state: BffState, maxUnknown: nat)
      ensures Valid() && View() == FRESH_BUS
      ensures this.state == state && this.maxUnknown == maxUnknown
    {
      this.state, this.maxUnknown := state, maxUnknown;
      next, owner := 1, map[];
      inflight, answered, unknown, expired := Empty(), Empty(), Empty(), Empty();
    }

    method Settle(key: Option<Key>, id: nat, r: CoreResult) returns (mine: bool)
      requires Valid()
      modifies this`owner, state
      ensures Valid()
      ensures (View(), state.View(), mine) == SettleKey(old(View()), old(state.View()), key, id, r)
    {
      if key.None? { return true; }
      if key.value !in owner || owner[key.value] != id { return false; }
      owner := owner - {key.value};
      if !Failed(r) || Failure(r) == Some(NO_PENDING) {
        state.Drop(key.value);
      } else {
        state.MarkResolving(key.value, false);
      }
      return true;
    }

    method Bury(id: nat, key: Option<Key>)
      requires Valid()
      modifies this`expired, this`owner
      ensures Valid()
      ensures View() == Tombstone(old(View()), id, key, maxUnknown)
    {
      expired.PutValid(id, key);
      expired := expired.Put(id, key);
      if |expired.order| > maxUnknown {
        var oldId := expired.order[0];
        var oldKey := expired.at[oldId];
        expired.RemoveValid(oldId);
        expired := expired.Remove(oldId);
        if oldKey.Some? && oldKey.value in owner && owner[oldKey.value] == oldId {
          owner := owner - {oldKey.value};
        }
      }
    }

    method EvictKeyless()
      requires Valid()
      modifies this`unknown, this`expired, this`owner
      ensures Valid()
      ensures View() == Evicted(old(View()), maxUnknown)
    {
      hide Tombstone, FirstKeyless;
      KeylessFrom(unknown.order, unknown.at, 0);
      var i := 0;
      while i < |unknown.order|
        invariant 0 <= i <= |unknown.order|
        invariant View() == old(View())
        invariant FirstKeyless(unknown.order, unknown.at) == FirstKeyless(unknown.order[i..], unknown.at)
      {
        KeylessFrom(unknown.order, unknown.at, i);
        var oldId := unknown.order[i];
        if unknown.at[oldId].None? {
          unknown.RemoveValid(oldId);
          unknown := unknown.Remove(oldId);
          Bury(oldId, None);
          return;
        }
        i := i + 1;
      }
      KeylessFrom(unknown.order, unknown.at, i);
    }

    method Remember(id: nat, key: Option<Key>)
      requires Valid()
      modifies this`unknown, this`expired, this`owner
      ensures Valid()
      ensures View() == RememberUnknown(old(View()), id, key, maxUnknown)
    {
      hide Evicted;
      if |unknown.order| >= maxUnknown { EvictKeyless(); }
      unknown.PutValid(id, key);
      unknown := unknown.Put(id, key);
    }

    method OnTimeout(id: nat)
      requires Valid() && id in inflight.at
      modifies this
      ensures Valid()
      ensures View() == TimedOut(old(View()), id, maxUnknown)
    {
      var key := inflight.at[id];
      inflight.RemoveValid(id);
      inflight := inflight.Remove(id);
      Remember(id, key);
    }

    method OnUnknownTimer(id: nat)
      requires Valid() && id in unknown.at
      modifies this, state
      ensures Valid()
      ensures (View(), state.View()) == UnknownExpired(old(View()), old(state.View()), id, maxUnknown)
    {
      var key := unknown.at[id];
      unknown.RemoveValid(id);
      unknown := unknown.Remove(id);
      Bury(id, key);
      if key.Some? && key.value in owner && owner[key.value] == id {
        state.MarkResolving(key.value, false);
      }
    }

    method Handle(cmd: Command, alive: bool, accepted: bool) returns (outcome: Outcome)
      requires Valid()
      modifies this, state
      ensures Valid()
      ensures outcome == Judge(old(View()), old(state.View()), cmd, alive, accepted)
      ensures (View(), state.View()) == Send(old(View()), old(state.View()), cmd, alive, accepted)
    {
      if !cmd.admitted { return NotAdmitted; }
      var id := next;
      next := next + 1;
      if !WellFormed(cmd) { return SchemaInvalid; }
      if cmd.key.Some? {
        var problem := state.IsProblem(cmd.key.value, cmd.revision);
        if problem.Some? { return Refused(problem.value); }
      }
      if !alive { return Unavailable; }
      if !accepted { return Unavailable; }
      if cmd.key.Some? {
        owner := owner[cmd.key.value := id];
        state.MarkResolving(cmd.key.value, true);
      }
      inflight.PutValid(id, cmd.key);
      inflight := inflight.Put(id, cmd.key);
      return Waiting(id);
    }

    method OnResultLine(rid: ResultId, r: CoreResult) returns (report: Report)
      requires Valid()
      modifies this, state
      ensures Valid()
      ensures (View(), state.View(), report) == OnResult(old(View()), old(state.View()), rid, r)
    {
      var waiter: Option<nat> := None;
      if rid.Web? && rid.n in inflight.at { waiter := Some(rid.n); }
      if rid.Undecoded? && |inflight.order| == 1 { waiter := Some(inflight.order[0]); }
      if waiter.Some? {
        var id := waiter.value;
        answered.PutValid(id, Answer(inflight.at[id], r));
        answered := answered.Put(id, Answer(inflight.at[id], r));
        inflight.RemoveValid(id);
        inflight := inflight.Remove(id);
        return Silent;
      }
      if rid.Web? && (rid.n in unknown.at || rid.n in expired.at) {
        var id, late := rid.n, rid.n in unknown.at;
        var key: Option<Key>;
        if late {
          key := unknown.at[id];
          unknown.RemoveValid(id);
          unknown := unknown.Remove(id);
        } else {
          key := expired.at[id];
          expired.RemoveValid(id);
          expired := expired.Remove(id);
        }
        var mine := Settle(key, id, r);
        return LateResult(id, Failed(r), Failed(r) || !late || !mine, !mine);
      }
      report := if rid.Shutdown? then Silent else Orphan;
    }

    method OnResume(id: nat)
      requires Valid() && id in answered.at
      modifies this, state
      ensures Valid()
      ensures (View(), state.View()) == Resume(old(View()), old(state.View()), id)
    {
      var a := answered.at[id];
      answered.RemoveValid(id);
      answered := answered.Remove(id);
      var _ := Settle(a.key, id, a.result);
    }

    method ReopenAll(t: Keyed)
      requires Valid() && t.Valid()
      modifies state
      ensures View() == old(View())
      ensures state.View() == Reopen(View(), old(state.View()), t.order, t.at)
    {
      var i := 0;
      while i < |t.order|
        invariant 0 <= i <= |t.order|
        invariant View() == old(View())
        invariant state.View() == Reopen(View(), old(state.View()), t.order[..i], t.at)
      {
        var id := t.order[i];
        assert t.order[..i + 1] == t.order[..i] + [id];
        ReopenAppend(View(), old(state.View()), t.order[..i], t.at, id);
        if t.at[id].Some? && t.at[id].value in owner && owner[t.at[id].value] == id {
          state.MarkResolving(t.at[id].value, false);
        }
        i := i + 1;
      }
      assert t.order[..i] == t.order;
    }

    method OnChildExit()
      requires Valid()
      modifies this, state
      ensures Valid()
      ensures (View(), state.View()) == ChildExit(old(View()), old(state.View()))
    {
      ReopenAll(inflight);
      ReopenAll(unknown);
      inflight, unknown, expired := Empty(), Empty(), Empty();
      owner := map[];
    }
  }
}
