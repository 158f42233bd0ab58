/** The browser across restarts of the hub (fronts/web/src/bff/sse.ts:183-230,
    fronts/web/src/ui/model.ts:106-169): a restarted hub numbers its frames from 1
    again, and the browser still sends the id of the last frame it got. */
module Restarts {
  import opened Tables
  import opened Hub
  import R = Replica

  /** `here` and `told` record, for the statements only, which seqs of the present hub the browser has
      applied and which gaps that hub has reported to it. `lived`: the page had frames of a former hub
      when this one started, so it should see this one's log from the start. */
  datatype Life = Life(w: R.World, here: seq<nat>, told: seq<Gap>, lived: bool)

  datatype Event = Goes(e: R.Event) | Restarts

  const BIRTH := Life(R.START, [], [], false)

  /** What the next item of the stream adds to the record. */
  function Noted(l: Life): Life
    requires l.w.conn.Some? && l.w.got < |l.w.conn.value.out|
  {
    match l.w.conn.value.out[l.w.got]
    case State(_, gap) => if gap.Some? then l.(told := l.told + [gap.value]) else l
    case Published(f) => if f.n > l.w.b.m.lastSeq then l.(here := l.here + [f.n]) else l
  }

  function Step(l: Life, e: Event, limits: Limits): Life {
    match e
    case Restarts => Life(R.World(NO_LOG, None, 0, 0, l.w.b), [], [], l.w.b.lastId.Id?)
    case Goes(e) =>
      var w' := R.Step(l.w, e, limits);
      if e.Reloads? then Life(w', [], [], false)
      else if e.Delivers? && l.w.conn.Some? && l.w.got < |l.w.conn.value.out| then Noted(l).(w := w')
      else l.(w := w')
  }

  function Run(l: Life, es: seq<Event>, limits: Limits): Life
    decreases |es|
  {
    if es == [] then l else Step(Run(l, es[..|es| - 1], limits), es[|es| - 1], limits)
  }

  /** The last seq of the present hub that the browser has applied. */
  function Top(here: seq<nat>): nat {
    if here == [] then 0 else here[|here| - 1]
  }

  // ---- What holds over every run ------------------------------------------------------------------

  /** The id the browser will send: that of the last frame of this hub, or else of a former one. */
  ghost predicate Identified(b: R.Browser, here: seq<nat>, told: seq<Gap>, lived: bool, last: nat) {
    match b.lastId
    case Absent => b.m.lastSeq == 0 && here == [] && told == [] && !lived
    case Garbled => false
    case Id(n) =>
      && n > 0 && (b.m.lastSeq == n || b.m.lastSeq == 0)
      && (here != [] ==> n == Top(here) && b.m.lastSeq == n && n <= last)
      && (here == [] ==> lived && !R.Reported(told, n))
  }

  ghost predicate Ordered(here: seq<nat>) {
    R.Increasing(here) && forall s :: s in here ==> 1 <= s <= Top(here)
  }

  /** The stream goes on from `pos`, and the browser will apply what is on it. */
  ghost predicate Flowing(w: R.World, here: seq<nat>) {
    w.conn.Some? ==>
      && w.got <= |w.conn.value.out| && Top(here) <= w.pos <= w.log.last
      && (if w.got == 0 then
            && w.conn.value.out != [] && w.conn.value.out[0].State?
            && (w.conn.value.out[0].seqLast < w.b.m.lastSeq || w.b.m.lastSeq <= w.pos)
            && R.Flow(w.conn.value.out[1..], w.pos, w.log.last, w.conn.value.closed)
            && (here != [] ==> w.b.m.lastSeq <= w.conn.value.out[0].seqLast)
            && (here == [] && w.b.lastId.Id? ==> !InGap(w.conn.value.out[0].gap, w.b.lastId.n))
            && (w.b.lastId.Absent? ==> w.conn.value.out[0].gap == None)
          else
            && w.b.m.lastSeq <= w.pos
            && R.Flow(w.conn.value.out[w.got..], w.pos, w.log.last, w.conn.value.closed))
  }

  ghost predicate Inv(l: Life, limits: Limits) {
    && LogInv(l.w.log, limits)
    && Identified(l.w.b, l.here, l.told, l.lived, l.w.log.last)
    && Ordered(l.here)
    && Flowing(l.w, l.here)
  }

  lemma ConnectKeeps(l: Life, stateBytes: nat, limits: Limits)
    requires Inv(l, limits) && limits.retryBytes <= limits.writable
    ensures Inv(Step(l, Goes(R.Connects(stateBytes)), limits), limits)
  {
    var w, l' := l.w, Step(l, Goes(R.Connects(stateBytes)), limits);
    if w.conn.None? {
      var h := w.b.lastId;
      AttachPartitions(w.log, h, limits);
      OpenNeverCutsTheReplay(w.log, h, 0, stateBytes, limits);
      R.FlowItems(Replay(w.log, h), l'.w.pos, w.log.last);
      assert l'.w.conn.value.out[1..] == Items(Replay(w.log, h));
      assert l'.w.conn.value.out[0] == State(w.log.last, GapOf(w.log, h));
    }
  }

  lemma PublishKeeps(l: Life, body: Body, bytes: nat, limits: Limits)
    requires Inv(l, limits)
    ensures Inv(Step(l, Goes(R.Event.Publishes(body, bytes)), limits), limits)
  {
    var w, w' := l.w, R.Step(l.w, R.Event.Publishes(body, bytes), limits);
    AppendInv(w.log, body, bytes, limits);
    if w.conn.Some? {
      R.StreamPublish(w.conn.value, w'.conn.value, if w.got == 0 then 1 else w.got, w.pos, w.log.last,
                      Frame(w.log.last + 1, body, bytes), limits);
    }
  }

  lemma BroadcastKeeps(l: Life, stateBytes: nat, limits: Limits)
    requires Inv(l, limits)
    ensures Inv(Step(l, Goes(R.Event.Broadcasts(stateBytes)), limits), limits)
  {
    var w, w' := l.w, R.Step(l.w, R.Event.Broadcasts(stateBytes), limits);
    if w.conn.Some? {
      var got := if w.got == 0 then 1 else w.got;
      R.StreamBroadcast(w.conn.value, w'.conn.value, got, w.pos, w.log.last, stateBytes, limits);
    }
  }

  lemma ToldMore(told: seq<Gap>, g: Gap, s: nat)
    ensures R.Reported(told + [g], s) <==> R.Reported(told, s) || g.from <= s <= g.to
  {
    if R.Reported(told, s) {
      var x :| x in told && x.from <= s <= x.to;
      assert x in told + [g];
    }
    assert g in told + [g];
  }

  lemma HelloKeeps(l: Life, limits: Limits)
    requires Inv(l, limits) && l.w.conn.Some? && l.w.got == 0
    ensures var gap, l' := l.w.conn.value.out[0].gap, Step(l, Goes(R.Delivers), limits);
            && Inv(l', limits) && l'.w.conn == l.w.conn && l'.w.got == 1 && l'.w.log == l.w.log && l'.w.pos == l.w.pos
            && l'.here == l.here && l'.told == l.told + (if gap.Some? then [gap.value] else [])
  {
    var w := l.w;
    var item := w.conn.value.out[0];
    R.FlowCut(w.conn.value.out[1..], w.pos, w.log.last, w.conn.value.closed);
    if item.gap.Some? && w.b.lastId.Id? { ToldMore(l.told, item.gap.value, w.b.lastId.n); }
  }

  lemma ItemKeeps(l: Life, limits: Limits)
    requires Inv(l, limits) && l.w.conn.Some? && 0 < l.w.got < |l.w.conn.value.out|
    ensures Inv(Step(l, Goes(R.Delivers), limits), limits)
    ensures var item, l' := l.w.conn.value.out[l.w.got], Step(l, Goes(R.Delivers), limits);
            && l'.told == l.told && l'.w.conn == l.w.conn && l'.w.got == l.w.got + 1 && l'.w.log == l.w.log
            && (if item.Published? then item.f.n == l.w.pos + 1 && l'.here == l.here + [item.f.n]
                 else l'.here == l.here)
  {
    var w := l.w;
    var rest, w' := w.conn.value.out[w.got..], R.Step(l.w, R.Delivers, limits);
    assert rest[0] == w.conn.value.out[w.got] && rest[1..] == w'.conn.value.out[w'.got..];
    R.FlowCut(rest[1..], w'.pos, w.log.last, w.conn.value.closed);
    if rest[0].Published? { OrderedGrows(l.here, rest[0].f.n); }
  }

  lemma OrderedGrows(here: seq<nat>, s: nat)
    requires Ordered(here) && Top(here) < s
    ensures Ordered(here + [s]) && Top(here + [s]) == s
  {}

  lemma StepKeeps(l: Life, e: Event, limits: Limits)
    requires Inv(l, limits) && limits.retryBytes <= limits.writable
    ensures Inv(Step(l, e, limits), limits)
  {
    hide Step, Inv;
    match e
    case Goes(Publishes(body, bytes)) => PublishKeeps(l, body, bytes, limits);
    case Goes(Broadcasts(stateBytes)) => BroadcastKeeps(l, stateBytes, limits);
    case Goes(Delivers) => DeliverKeeps(l, limits);
    case Goes(Connects(stateBytes)) => ConnectKeeps(l, stateBytes, limits);
    case _ => OtherKeeps(l, e, limits);
  }

  lemma DeliverKeeps(l: Life, limits: Limits)
    requires Inv(l, limits)
    ensures Inv(Step(l, Goes(R.Delivers), limits), limits)
  {
    hide Inv;
    InvBoundsGot(l, limits);
    if l.w.conn.Some? && l.w.got < |l.w.conn.value.out| {
      if l.w.got == 0 { HelloKeeps(l, limits); } else { ItemKeeps(l, limits); }
    } else {
      assert Step(l, Goes(R.Delivers), limits) == l;
    }
  }

  lemma InvBoundsGot(l: Life, limits: Limits)
    requires Inv(l, limits)
    ensures l.w.conn.Some? ==> l.w.got <= |l.w.conn.value.out|
  {}

  lemma OtherKeeps(l: Life, e: Event, limits: Limits)
    requires Inv(l, limits)
    requires e.Restarts? || e.e.Drains? || e.e.Breaks? || e.e.Reloads? || e.e.Echoes?
    ensures Inv(Step(l, e, limits), limits)
  {}

  lemma {:induction false} RunKeeps(es: seq<Event>, limits: Limits)
    requires limits.retryBytes <= limits.writable
    ensures Inv(Run(BIRTH, es, limits), limits)
    decreases |es|
  {
    hide Step, Inv;
    if es == [] { BirthInv(limits); }
    else {
      RunKeeps(es[..|es| - 1], limits);
      StepKeeps(Run(BIRTH, es[..|es| - 1], limits), es[|es| - 1], limits);
    }
  }

  lemma BirthInv(limits: Limits)
    ensures Inv(BIRTH, limits)
  {}

  // ---- One attach ------------------------------------------------------------------------------------

  function Delivered(l: Life, k: nat, limits: Limits): Life {
    if k == 0 then l else Step(Delivered(l, k - 1, limits), Goes(R.Delivers), limits)
  }

  /** The browser attaches and everything the hub answers arrives. */
  function Attached(l: Life, stateBytes: nat, limits: Limits): Life {
    Delivered(Step(l, Goes(R.Connects(stateBytes)), limits), 1 + |Replay(l.w.log, l.w.b.lastId)|, limits)
  }

  /** A stream that has just been opened. */
  lemma JustOpened(l: Life, stateBytes: nat, limits: Limits)
    requires Inv(l, limits) && limits.retryBytes <= limits.writable && l.w.conn.None?
    ensures var l', h := Step(l, Goes(R.Connects(stateBytes)), limits), l.w.b.lastId;
            && Inv(l', limits) && l'.w.conn.Some? && l'.w.got == 0 && l'.w.log == l.w.log
            && l'.w.conn.value.out == [State(l.w.log.last, GapOf(l.w.log, h))] + Items(Replay(l.w.log, h))
            && l'.here == l.here && l'.told == l.told
  {
    ConnectKeeps(l, stateBytes, limits);
    OpenNeverCutsTheReplay(l.w.log, l.w.b.lastId, 0, stateBytes, limits);
  }

  /** After the state frame and k frames of the replay. */
  lemma {:induction false} ArrivedSoFar(l0: Life, replay: seq<Frame>, k: nat, limits: Limits)
    requires Inv(l0, limits) && l0.w.conn.Some? && l0.w.got == 0 && k <= |replay|
    requires l0.w.conn.value.out[1..] == Items(replay)
    ensures var l', gap := Delivered(l0, 1 + k, limits), l0.w.conn.value.out[0].gap;
            && Inv(l', limits) && l'.w.conn == l0.w.conn && l'.w.got == 1 + k && l'.w.log == l0.w.log
            && l'.here == l0.here + R.SeqsOf(replay[..k])
            && l'.told == l0.told + (if gap.Some? then [gap.value] else [])
    decreases k
  {
    hide Step, Inv;
    InvHasState(l0, limits);
    if k == 0 {
      assert Delivered(l0, 0, limits) == l0;
      HelloKeeps(l0, limits);
      assert l0.here + R.SeqsOf(replay[..0]) == l0.here;
    } else {
      ArrivedSoFar(l0, replay, k - 1, limits);
      var l1 := Delivered(l0, k, limits);
      assert l0.w.conn.value.out[k] == l0.w.conn.value.out[1..][k - 1] == Published(replay[k - 1]);
      ItemKeeps(l1, limits);
      SeqsSnoc(l0.here, replay, k);
    }
  }

  lemma InvHasState(l: Life, limits: Limits)
    requires Inv(l, limits) && l.w.conn.Some? && l.w.got == 0
    ensures l.w.conn.value.out != [] && l.w.conn.value.out[0].State?
  {}

  lemma SeqsSnoc(here: seq<nat>, replay: seq<Frame>, k: nat)
    requires 0 < k <= |replay|
    ensures here + R.SeqsOf(replay[..k]) == (here + R.SeqsOf(replay[..k - 1])) + [replay[k - 1].n]
  {}

  /** Nothing the hub has is missing beyond what the browser had: each later seq is applied or reported. */
  ghost predicate NothingMissing(l: Life, from: nat) {
    forall s: nat :: from < s <= l.w.log.last ==> s in l.here || R.Reported(l.told, s)
  }

  lemma AttachedHas(l: Life, stateBytes: nat, limits: Limits)
    requires Inv(l, limits) && limits.retryBytes <= limits.writable && l.w.conn.None?
    ensures var l', n := Attached(l, stateBytes, limits), l.w.b.lastId;
            var gap, replay := GapOf(l.w.log, n), Replay(l.w.log, n);
            && Inv(l', limits) && l'.w.log == l.w.log
            && l'.here == l.here + R.SeqsOf(replay)
            && l'.told == l.told + (if gap.Some? then [gap.value] else [])
  {
    hide Step, Inv;
    var l0, replay := Step(l, Goes(R.Connects(stateBytes)), limits), Replay(l.w.log, l.w.b.lastId);
    JustOpened(l, stateBytes, limits);
    assert l0.w.conn.value.out[1..] == Items(replay);
    ArrivedSoFar(l0, replay, |replay|, limits);
    assert replay[..|replay|] == replay;
  }

  /** What an attach with an id brings: every seq above the point it continues from. */
  lemma AttachBrings(l: Life, stateBytes: nat, limits: Limits, s: nat)
    requires Inv(l, limits) && limits.retryBytes <= limits.writable && l.w.conn.None? && l.w.b.lastId.Id?
    ensures var l' := Attached(l, stateBytes, limits);
            (s in l'.here || R.Reported(l'.told, s)) <==>
              s in l.here || R.Reported(l.told, s) || Point(l.w.log, l.w.b.lastId) < s <= l.w.log.last
  {
    var h := l.w.b.lastId;
    var gap, replay := GapOf(l.w.log, h), Replay(l.w.log, h);
    AttachedHas(l, stateBytes, limits);
    AttachPartitions(l.w.log, h, limits);
    ReplaySeqs(replay, l.w.log.last - |replay| + 1, s);
    if gap.Some? { ToldMore(l.told, gap.value, s); } else { assert l.told + [] == l.told; }
  }

  lemma ReplaySeqs(replay: seq<Frame>, first: int, s: nat)
    requires IsRun(replay, first)
    ensures s in R.SeqsOf(replay) <==> first <= s < first + |replay|
  {
    if first <= s < first + |replay| { assert R.SeqsOf(replay)[s - first] == s; }
  }

  /** In every reachable state, also after restarts of the hub: attaching with an id brings the
      browser all it misses of this hub's log if and only if the id is beyond the hub's last seq, so
      that the hub starts over, or is within what the browser has applied of this very log. */
  lemma AttachLosesNothingIff(es: seq<Event>, stateBytes: nat, limits: Limits)
    requires limits.retryBytes <= limits.writable
    requires var l := Run(BIRTH, es, limits); l.w.conn.None? && l.w.b.lastId.Id?
    ensures var l := Run(BIRTH, es, limits);
            NothingMissing(Attached(l, stateBytes, limits), Top(l.here)) <==>
              l.w.b.lastId.n > l.w.log.last || l.w.b.lastId.n <= Top(l.here)
  {
    hide Step, Run, Delivered;
    RunKeeps(es, limits);
    AttachIff(Run(BIRTH, es, limits), stateBytes, limits);
  }

  lemma AttachIff(l: Life, stateBytes: nat, limits: Limits)
    requires Inv(l, limits) && limits.retryBytes <= limits.writable && l.w.conn.None? && l.w.b.lastId.Id?
    ensures NothingMissing(Attached(l, stateBytes, limits), Top(l.here)) <==>
              l.w.b.lastId.n > l.w.log.last || l.w.b.lastId.n <= Top(l.here)
  {
    hide Attached;
    var n, l' := l.w.b.lastId.n, Attached(l, stateBytes, limits);
    AttachedHas(l, stateBytes, limits);
    forall s: nat ensures (s in l'.here || R.Reported(l'.told, s)) <==>
        s in l.here || R.Reported(l.told, s) || Point(l.w.log, l.w.b.lastId) < s <= l.w.log.last
    {
      AttachBrings(l, stateBytes, limits, s);
    }
    if Top(l.here) < n <= l.w.log.last {
      assert l.here == [] && !R.Reported(l.told, n);
      assert n !in l'.here && !R.Reported(l'.told, n);
    }
  }

  // ---- What an attach misses is missed for good ---------------------------------------------------------

  /** Seq x is behind the browser: neither applied nor reported, and nothing on the way. */
  ghost predicate Behind(l: Life, x: nat) {
    && x <= l.w.log.last && x !in l.here && !R.Reported(l.told, x)
    && l.w.b.lastId.Id? && x <= l.w.b.lastId.n <= l.w.log.last
    && (l.w.conn.Some? ==>
          && x <= l.w.pos
          && (l.w.got == 0 && l.w.conn.value.out != [] && l.w.conn.value.out[0].State? ==>
               !InGap(l.w.conn.value.out[0].gap, x)))
  }

  lemma BehindStays(l: Life, e: Event, limits: Limits, x: nat)
    requires Inv(l, limits) && limits.retryBytes <= limits.writable && Behind(l, x)
    requires !e.Restarts? && e != Goes(R.Reloads)
    ensures Behind(Step(l, e, limits), x)
  {
    match e
    case Goes(Connects(stateBytes)) =>
      if l.w.conn.None? { BehindAttach(l, stateBytes, limits, x); }
    case Goes(Delivers) =>
      if l.w.conn.Some? && l.w.got < |l.w.conn.value.out| { BehindDelivers(l, limits, x); }
    case Goes(Publishes(body, bytes)) => BehindPublish(l, body, bytes, limits, x);
    case Goes(_) =>
  }

  lemma BehindPublish(l: Life, body: Body, bytes: nat, limits: Limits, x: nat)
    requires Inv(l, limits) && Behind(l, x)
    ensures Behind(Step(l, Goes(R.Event.Publishes(body, bytes)), limits), x)
  {
    hide Trim;
  }

  lemma BehindAttach(l: Life, stateBytes: nat, limits: Limits, x: nat)
    requires Inv(l, limits) && limits.retryBytes <= limits.writable && Behind(l, x) && l.w.conn.None?
    ensures Behind(Step(l, Goes(R.Connects(stateBytes)), limits), x)
  {
    JustOpened(l, stateBytes, limits);
    AttachPartitions(l.w.log, l.w.b.lastId, limits);
  }

  lemma BehindDelivers(l: Life, limits: Limits, x: nat)
    requires Inv(l, limits) && Behind(l, x) && l.w.conn.Some? && l.w.got < |l.w.conn.value.out|
    ensures Behind(Step(l, Goes(R.Delivers), limits), x)
  {
    if l.w.got == 0 {
      HelloKeeps(l, limits);
      if l.w.conn.value.out[0].gap.Some? { ToldMore(l.told, l.w.conn.value.out[0].gap.value, x); }
    } else {
      ItemKeeps(l, limits);
      StepKeepsLast(l, limits);
    }
  }

  lemma StepKeepsLast(l: Life, limits: Limits)
    requires Inv(l, limits) && l.w.conn.Some? && 0 < l.w.got < |l.w.conn.value.out|
    ensures var item, l' := l.w.conn.value.out[l.w.got], Step(l, Goes(R.Delivers), limits);
            && l'.w.b.lastId == (if item.Published? then Id(item.f.n) else l.w.b.lastId)
            && l'.w.pos == (if item.Published? then item.f.n else l.w.pos)
            && (item.Published? ==> item.f.n <= l.w.log.last)
  {
    var rest := l.w.conn.value.out[l.w.got..];
    assert rest[0] == l.w.conn.value.out[l.w.got];
    R.FlowCut(rest, l.w.pos, l.w.log.last, l.w.conn.value.closed);
    if rest[0].Published? { R.FlowCut(rest[1..], rest[0].f.n, l.w.log.last, l.w.conn.value.closed); }
  }

  lemma {:induction false} BehindForGood(l: Life, es: seq<Event>, limits: Limits, x: nat)
    requires Inv(l, limits) && limits.retryBytes <= limits.writable && Behind(l, x)
    requires forall e :: e in es ==> !e.Restarts? && e != Goes(R.Reloads)
    ensures Inv(Run(l, es, limits), limits) && Behind(Run(l, es, limits), x)
    decreases |es|
  {
    hide Step, Inv, Behind;
    if es != [] {
      BehindForGood(l, es[..|es| - 1], limits, x);
      assert es[|es| - 1] in es;
      StepKeeps(Run(l, es[..|es| - 1], limits), es[|es| - 1], limits);
      BehindStays(Run(l, es[..|es| - 1], limits), es[|es| - 1], limits, x);
    }
  }

  /** An id of a former hub that this hub's log has reached: the frame of that number is neither
      shown nor reported any more, until the page is reloaded or the hub restarts again. */
  lemma LostForGood(es: seq<Event>, more: seq<Event>, limits: Limits)
    requires limits.retryBytes <= limits.writable
    requires var l := Run(BIRTH, es, limits);
             l.w.conn.None? && l.w.b.lastId.Id? && Top(l.here) < l.w.b.lastId.n <= l.w.log.last
    requires forall e :: e in more ==> !e.Restarts? && e != Goes(R.Reloads)
    ensures var l, l' := Run(BIRTH, es, limits), Run(Run(BIRTH, es, limits), more, limits);
            l.w.b.lastId.n !in l'.here && !R.Reported(l'.told, l.w.b.lastId.n)
  {
    hide Step, Run;
    RunKeeps(es, limits);
    var l := Run(BIRTH, es, limits);
    BehindForGood(l, more, limits, l.w.b.lastId.n);
  }

  // ---- Runs whose attaches are all safe --------------------------------------------------------------------

  /** The condition of `AttachLosesNothingIff`, which the hub could check if it knew the log the id is from. */
  predicate Safe(l: Life, e: Event) {
    e.Goes? && e.e.Connects? && l.w.conn.None? && l.w.b.lastId.Id? ==>
      l.w.b.lastId.n > l.w.log.last || l.w.b.lastId.n <= Top(l.here)
  }

  ghost predicate SafeRun(es: seq<Event>, limits: Limits) {
    forall i :: 0 <= i < |es| ==> Safe(Run(BIRTH, es[..i], limits), es[i])
  }

  /** Seq s is one the browser should have: from the start of the log if the page was there before
      the hub, else from the first frame it got. */
  ghost predicate Owed(l: Life, s: nat) {
    (l.lived && 1 <= s) || (l.here != [] && l.here[0] <= s)
  }

  /** Up to the last applied seq every owed one is applied or reported, never both. */
  ghost predicate Covered(l: Life) {
    forall s: nat :: Owed(l, s) && s <= Top(l.here) ==> (s in l.here <==> !R.Reported(l.told, s))
  }

  /** Gaps reported ahead of the last applied seq start right behind it and are gone from the buffer. */
  ghost predicate Settled(l: Life) {
    forall g :: g in l.told ==>
      g.from >= 1 && (g.to <= Top(l.here) || (g.from == Top(l.here) + 1 && g.to < Min(l.w.log)))
  }

  /** Between the last applied seq and the position of the stream nothing is missing but what is reported. */
  ghost predicate Bridged(l: Life) {
    l.w.conn.Some? ==>
      && (forall g :: g in l.told ==> g.to <= l.w.pos)
      && (if l.w.got == 0 && l.w.conn.value.out != [] && l.w.conn.value.out[0].State? then
            match l.w.conn.value.out[0].gap
            case Some(g) => g == Gap(Top(l.here) + 1, l.w.pos) && l.w.pos < Min(l.w.log)
            case None => l.w.pos == Top(l.here) || (l.here == [] && !l.lived)
          else l.w.pos == Top(l.here) || Gap(Top(l.here) + 1, l.w.pos) in l.told || (l.here == [] && !l.lived))
  }

  ghost predicate Whole(l: Life) {
    Covered(l) && Settled(l) && Bridged(l)
  }

  lemma WholeAttach(l: Life, stateBytes: nat, limits: Limits)
    requires Inv(l, limits) && Whole(l) && limits.retryBytes <= limits.writable && l.w.conn.None?
    requires Safe(l, Goes(R.Connects(stateBytes)))
    ensures Whole(Step(l, Goes(R.Connects(stateBytes)), limits))
  {
    JustOpened(l, stateBytes, limits);
    AttachPartitions(l.w.log, l.w.b.lastId, limits);
  }

  lemma WholePublish(l: Life, body: Body, bytes: nat, limits: Limits)
    requires Inv(l, limits) && Whole(l)
    ensures Whole(Step(l, Goes(R.Event.Publishes(body, bytes)), limits))
  {
    R.MinGrows(l.w.log, body, bytes, limits);
    hide Append;
  }

  lemma WholeHello(l: Life, limits: Limits)
    requires Inv(l, limits) && Whole(l) && l.w.conn.Some? && l.w.got == 0
    ensures Whole(Step(l, Goes(R.Delivers), limits))
  {
    var l' := Step(l, Goes(R.Delivers), limits);
    HelloKeeps(l, limits);
    var gap := l.w.conn.value.out[0].gap;
    if gap.Some? {
      assert gap.value in l'.told;
      forall s: nat | s <= Top(l.here) ensures R.Reported(l'.told, s) <==> R.Reported(l.told, s) {
        ToldMore(l.told, gap.value, s);
      }
    }
  }

  lemma WholeItem(l: Life, limits: Limits)
    requires Inv(l, limits) && Whole(l) && l.w.conn.Some? && 0 < l.w.got < |l.w.conn.value.out|
    ensures Whole(Step(l, Goes(R.Delivers), limits))
  {
    var l' := Step(l, Goes(R.Delivers), limits);
    ItemKeeps(l, limits);
    StepKeepsLast(l, limits);
    if l.w.conn.value.out[l.w.got].Published? { WholeFrame(l, l', limits); }
  }

  lemma WholeFrame(l: Life, l': Life, limits: Limits)
    requires Inv(l, limits) && Whole(l) && l.w.conn.Some? && l.w.got > 0 && l'.w.got > 0
    requires l'.here == l.here + [l.w.pos + 1] && l'.told == l.told && l'.lived == l.lived
    requires l'.w.conn == l.w.conn && l'.w.log == l.w.log && l'.w.pos == l.w.pos + 1
    ensures Whole(l')
  {
    var f := l.w.pos + 1;
    assert Top(l'.here) == f;
    forall s: nat | Owed(l', s) && s <= f ensures s in l'.here <==> !R.Reported(l'.told, s) {
      assert l'.here[|l.here|] == f;
      if Top(l.here) < s <= l.w.pos && (l.lived || l.here != []) {
        assert Gap(Top(l.here) + 1, l.w.pos) in l.told;
      }
      assert l.here != [] ==> l'.here[0] == l.here[0];
      assert s != f && s <= Top(l.here) ==> Owed(l, s);
    }
  }

  lemma WholeStep(l: Life, e: Event, limits: Limits)
    requires Inv(l, limits) && Whole(l) && limits.retryBytes <= limits.writable && Safe(l, e)
    ensures Whole(Step(l, e, limits))
  {
    match e
    case Goes(Connects(stateBytes)) => if l.w.conn.None? { WholeAttach(l, stateBytes, limits); }
    case Goes(Publishes(body, bytes)) => WholePublish(l, body, bytes, limits);
    case Goes(Delivers) =>
      if l.w.conn.Some? && l.w.got < |l.w.conn.value.out| {
        if l.w.got == 0 { WholeHello(l, limits); } else { WholeItem(l, limits); }
      }
    case _ => WholeOther(l, e, limits);
  }

  lemma WholeOther(l: Life, e: Event, limits: Limits)
    requires Inv(l, limits) && Whole(l)
    requires e.Restarts? || e.e.Broadcasts? || e.e.Drains? || e.e.Breaks? || e.e.Reloads? || e.e.Echoes?
    ensures Whole(Step(l, e, limits))
  {}

  lemma {:induction false} WholeRun(es: seq<Event>, limits: Limits)
    requires limits.retryBytes <= limits.writable && SafeRun(es, limits)
    ensures Inv(Run(BIRTH, es, limits), limits) && Whole(Run(BIRTH, es, limits))
    decreases |es|
  {
    hide Step, Inv, Whole, Safe;
    if es == [] { BirthIsWhole(limits); }
    else {
      var front := es[..|es| - 1];
      assert forall i :: 0 <= i < |front| ==> es[..i] == front[..i] && es[i] == front[i];
      WholeRun(front, limits);
      WholeStep(Run(BIRTH, front, limits), es[|es| - 1], limits);
      StepKeeps(Run(BIRTH, front, limits), es[|es| - 1], limits);
    }
  }

  lemma BirthIsWhole(limits: Limits)
    ensures Inv(BIRTH, limits) && Whole(BIRTH)
  {}

  /** Over every run in which each attach is safe, restarts of the hub included: of the seqs the
      browser should have of the present log each one up to the last applied is applied or reported,
      never both, in increasing order; and once everything on an open stream has arrived, that goes
      for the whole log. */
  lemma SafeRunsLoseNothing(es: seq<Event>, limits: Limits, s: nat)
    requires limits.retryBytes <= limits.writable && SafeRun(es, limits)
    ensures var l := Run(BIRTH, es, limits);
            && R.Increasing(l.here)
            && (Owed(l, s) && s <= Top(l.here) ==> (s in l.here <==> !R.Reported(l.told, s)))
            && (l.w.conn.Some? && !l.w.conn.value.closed && l.w.got == |l.w.conn.value.out| ==>
                  (Owed(l, s) && s <= l.w.log.last ==> s in l.here || R.Reported(l.told, s)))
  {
    hide Step, Run;
    WholeRun(es, limits);
    var l := Run(BIRTH, es, limits);
    if l.w.conn.Some? && !l.w.conn.value.closed && l.w.got == |l.w.conn.value.out| {
      assert l.w.got > 0 && l.w.conn.value.out[l.w.got..] == [] && l.w.pos == l.w.log.last;
    }
  }

  // ---- Two runs that lose frames ------------------------------------------------------------------------------

  const PLAIN := Body.Notice("")

  /** One more step of a run. */
  lemma Reach(es: seq<Event>, l: Life, e: Event, limits: Limits) returns (es': seq<Event>, l': Life)
    requires l == Run(BIRTH, es, limits)
    ensures es' == es + [e] && l' == Step(l, e, limits) == Run(BIRTH, es', limits)
  {
    hide Step;
    es', l' := es + [e], Step(l, e, limits);
    assert es'[..|es|] == es;
  }

  /** k more frames of no size, which fit the buffer. */
  lemma {:induction false} MoreFrames(es: seq<Event>, l: Life, k: nat, limits: Limits)
      returns (es': seq<Event>, l': Life)
    requires l == Run(BIRTH, es, limits) && l.w.conn.None?
    requires LogInv(l.w.log, limits) && l.w.log.bytes == 0 && |l.w.log.frames| == l.w.log.last
    requires l.w.log.last + k <= limits.maxFrames
    ensures es <= es' && l' == Run(BIRTH, es', limits) && l' == l.(w := l.w.(log := l'.w.log))
    ensures LogInv(l'.w.log, limits) && l'.w.log.bytes == 0 && |l'.w.log.frames| == l'.w.log.last == l.w.log.last + k
    decreases k
  {
    hide Run, LogInv;
    es', l' := es, l;
    if k > 0 {
      es', l' := MoreFrames(es, l, k - 1, limits);
      KeepsAll(l'.w.log, limits);
      es', l' := Reach(es', l', Goes(R.Event.Publishes(PLAIN, 0)), limits);
    }
  }

  lemma KeepsAll(log: Log, limits: Limits)
    requires LogInv(log, limits) && log.bytes == 0 && |log.frames| == log.last < limits.maxFrames
    ensures var log' := Append(log, PLAIN, 0, limits);
            LogInv(log', limits) && log'.bytes == 0 && |log'.frames| == log'.last == log.last + 1
  {
    AppendInv(log, PLAIN, 0, limits);
    var pushed := log.frames + [Frame(log.last + 1, PLAIN, 0)];
    SumPush(log.frames, Frame(log.last + 1, PLAIN, 0));
    assert Trim(pushed, limits) == pushed;
  }

  lemma {:induction false} ReachDelivered(es: seq<Event>, l: Life, k: nat, limits: Limits)
      returns (es': seq<Event>, l': Life)
    requires l == Run(BIRTH, es, limits)
    ensures es <= es' && l' == Delivered(l, k, limits) == Run(BIRTH, es', limits)
    decreases k
  {
    hide Step, Run;
    es', l' := es, l;
    if k > 0 {
      es', l' := ReachDelivered(es, l, k - 1, limits);
      es', l' := Reach(es', l', Goes(R.Delivers), limits);
    }
  }

  lemma ReachAttached(es: seq<Event>, l: Life, limits: Limits) returns (es': seq<Event>, l': Life)
    requires l == Run(BIRTH, es, limits)
    ensures es <= es' && l' == Attached(l, 0, limits) == Run(BIRTH, es', limits)
  {
    hide Step, Run, Delivered;
    es', l' := Reach(es, l, Goes(R.Connects(0)), limits);
    es', l' := ReachDelivered(es', l', 1 + |Replay(l.w.log, l.w.b.lastId)|, limits);
  }

  /** What is replayed of a log that has lost nothing. */
  lemma ReplayOfAll(log: Log, h: Header, limits: Limits)
    requires LogInv(log, limits) && |log.frames| == log.last && !h.Garbled?
    ensures GapOf(log, h) == None
    ensures R.SeqsOf(Replay(log, h)) == From(Point(log, h), log.last)
  {
    NewerIsSuffix(log.frames, 1, Point(log, h));
  }

  /** The seqs after n up to last. */
  function From(n: nat, last: nat): seq<nat>
    requires n <= last
  {
    seq(last - n, i requires 0 <= i < last - n => n + 1 + i)
  }

  /** A page that has seen `seen` frames of a hub that is then restarted. */
  lemma SeenThenRestarted(seen: nat, limits: Limits) returns (es: seq<Event>, l: Life)
    requires limits.retryBytes <= limits.writable && 1 <= seen <= limits.maxFrames
    ensures l == Run(BIRTH, es, limits) && Inv(l, limits) && l.w.log == NO_LOG && l.w.conn.None?
    ensures l.w.b.lastId == Id(seen) && l.here == [] && l.told == [] && l.lived
  {
    hide Step, Run, Inv, Attached;
    BirthFacts(limits);
    es, l := MoreFrames([], BIRTH, seen, limits);
    RunKeeps(es, limits);
    ReplayOfAll(l.w.log, Absent, limits);
    AttachedHas(l, 0, limits);
    es, l := ReachAttached(es, l, limits);
    assert l.here == [] + From(0, seen) && l.here[|l.here| - 1] == seen;
    KnownById(l, limits);
    RestartFacts(l, limits);
    es, l := Reach(es, l, Restarts, limits);
    RunKeeps(es, limits);
  }

  lemma BirthFacts(limits: Limits)
    ensures BIRTH == Run(BIRTH, [], limits) && Inv(BIRTH, limits) && BIRTH.w.log.bytes == 0 && BIRTH.w.log.frames == []
  {}

  lemma KnownById(l: Life, limits: Limits)
    requires Inv(l, limits) && l.here != []
    ensures l.w.b.lastId == Id(Top(l.here))
  {}

  lemma RestartFacts(l: Life, limits: Limits)
    requires l.w.b.lastId.Id?
    ensures var l' := Step(l, Restarts, limits);
            l'.w.log == NO_LOG && l'.w.conn.None? && l'.w.b == l.w.b && l'.here == [] && l'.told == [] && l'.lived
  {}

  /** A browser with an id of a former hub attaches to a log that has reached it: the frames up to
      that id are skipped without a word. */
  lemma SkipsTheStart(es: seq<Event>, l: Life, seen: nat, anew: nat, limits: Limits) returns (es': seq<Event>)
    requires limits.retryBytes <= limits.writable && seen <= anew <= limits.maxFrames
    requires l == Run(BIRTH, es, limits) && Inv(l, limits) && l.w.log == NO_LOG && l.w.conn.None?
    requires l.w.b.lastId == Id(seen) && l.here == [] && l.told == [] && l.lived
    ensures es <= es'
    ensures var l' := Run(BIRTH, es', limits);
            l'.w.log.last == anew && l'.here == From(seen, anew) && l'.told == [] && l'.lived
  {
    hide Step, Run, Inv, Attached;
    var l1;
    LogIsWhole(l, limits);
    es', l1 := MoreFrames(es, l, anew, limits);
    RunKeeps(es', limits);
    ReplayOfAll(l1.w.log, Id(seen), limits);
    AttachedHas(l1, 0, limits);
    AttachedLives(l1, limits);
    es', l1 := ReachAttached(es', l1, limits);
    assert [] + From(seen, anew) == From(seen, anew);
    assert l.told + [] == [];
  }

  lemma LogIsWhole(l: Life, limits: Limits)
    requires Inv(l, limits)
    ensures LogInv(l.w.log, limits)
  {}

  lemma {:induction false} AttachedLives(l: Life, limits: Limits)
    ensures Attached(l, 0, limits).lived == l.lived
  {
    DeliveredLives(Step(l, Goes(R.Connects(0)), limits), 1 + |Replay(l.w.log, l.w.b.lastId)|, limits);
  }

  lemma {:induction false} DeliveredLives(l: Life, k: nat, limits: Limits)
    ensures Delivered(l, k, limits).lived == l.lived
    decreases k
  {
    if k > 0 { DeliveredLives(l, k - 1, limits); }
  }

  /** A restart without any cut: the new hub has published as much as the browser had seen before it
      attaches, so neither side notices, and the browser never gets the first `seen` frames. */
  lemma OvertakenRestartLosesFrames(seen: nat, anew: nat, limits: Limits) returns (es: seq<Event>)
    requires limits.retryBytes <= limits.writable && 1 <= seen <= anew <= limits.maxFrames
    ensures var l := Run(BIRTH, es, limits);
            l.w.log.last == anew && l.here == From(seen, anew) && l.told == [] && Owed(l, 1)
  {
    hide Step, Run, Inv;
    var l;
    es, l := SeenThenRestarted(seen, limits);
    es := SkipsTheStart(es, l, seen, anew, limits);
  }

  /** A restart that both sides notice, then a cut before the first frame: the browser starts over but
      still sends the old id, which the new hub's log has reached by then. */
  lemma RestartThenCutLosesFrames(seen: nat, anew: nat, limits: Limits) returns (es: seq<Event>, before: seq<Event>)
    requires limits.retryBytes <= limits.writable && 1 <= seen <= anew <= limits.maxFrames
    ensures Run(BIRTH, before, limits).w.b.m.lastSeq == 0 && before <= es
    ensures var l := Run(BIRTH, es, limits);
            l.w.log.last == anew && l.here == From(seen, anew) && l.told == [] && Owed(l, 1)
  {
    hide Step, Run, Inv;
    var l;
    es, l := SeenThenRestarted(seen, limits);
    NoticedThenCut(l, limits);
    es, l := Reach(es, l, Goes(R.Connects(0)), limits);
    es, l := Reach(es, l, Goes(R.Delivers), limits);
    es, l := Reach(es, l, Goes(R.Breaks), limits);
    RunKeeps(es, limits);
    before := es;
    es := SkipsTheStart(es, l, seen, anew, limits);
  }

  lemma NoticedThenCut(l: Life, limits: Limits)
    requires Inv(l, limits) && limits.retryBytes <= limits.writable && l.w.log == NO_LOG && l.w.conn.None?
    requires l.w.b.lastId.Id? && l.here == [] && l.told == [] && l.lived
    ensures var l' := Step(Step(Step(l, Goes(R.Connects(0)), limits), Goes(R.Delivers), limits), Goes(R.Breaks),
                           limits);
            && l'.w.log == NO_LOG && l'.w.conn.None? && l'.w.b.lastId == l.w.b.lastId && l'.w.b.m.lastSeq == 0
            && l'.here == [] && l'.told == [] && l'.lived
  {
    JustOpened(l, 0, limits);
    HelloKeeps(Step(l, Goes(R.Connects(0)), limits), limits);
  }
}
