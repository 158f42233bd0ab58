/** The browser's copy of the hub's log (fronts/web/src/ui/model.ts) across cuts
    and reconnects of one hub.

    The browser keeps the last event id it was sent and returns it when it
    reconnects (section 9.2.4 of the HTML Living Standard). */
module Replica {
  import opened Tables
  import opened Hub

  // ---- The timeline model ------------------------------------------------------------------

  datatype RowText = Line(s: string) | Omitted(count: nat)

  /** Unique key: the seq, or a negative local id for rows the hub never sent. */
  datatype Row = Row(key: int, text: RowText)

  datatype Model = Model(rows: seq<Row>, lastSeq: nat, nextLocal: int)

  const INITIAL := Model([], 0, -1)
  const RESUME_HINT := "에이전트가 멈췄습니다. 메시지를 보내면 이어서 진행하고, 끝내려면 종료 버튼을 누르세요."

  function Push(m: Model, text: RowText, key: Option<nat>): Model {
    match key
    case Some(k) => m.(rows := m.rows + [Row(k, text)])
    case None => m.(rows := m.rows + [Row(m.nextLocal, text)], nextLocal := m.nextLocal - 1)
  }

  /** applyWire and applyNotice: frames at or below lastSeq are replay duplicates. */
  function ApplyFrame(m: Model, f: Frame): Model {
    if f.n <= m.lastSeq then m
    else
      var m1 := m.(lastSeq := f.n);
      match f.body
      case Notice(text) => Push(m1, Line(text), Some(f.n))
      case Wire(line, hint) =>
        var m2 := if line.Some? then Push(m1, Line(line.value), Some(f.n)) else m1;
        if hint && (m2.rows == [] || m2.rows[|m2.rows| - 1].text != Line(RESUME_HINT))
        then Push(m2, Line(RESUME_HINT), None) else m2
  }

  function ApplyEcho(m: Model, text: string): Model {
    Push(m, Line(text), None)
  }

  /** A smaller seq_last than what we have means another seq space. */
  predicate Restarted(m: Model, seqLast: nat) {
    seqLast < m.lastSeq
  }

  function ApplyState(m: Model, seqLast: nat, gap: Option<Gap>): Model {
    var m1 := if Restarted(m, seqLast) then INITIAL else m;
    if gap.None? then m1
    else Push(m1, Omitted(if gap.value.to < gap.value.from then 0 else gap.value.to - gap.value.from + 1), None)
  }

  // ---- The browser ---------------------------------------------------------------------------

  /** `applied` and `gaps` record, for the statements only, the seqs applied and the gaps
      reported since the model was last reset. */
  datatype Browser = Browser(m: Model, lastId: Header, applied: seq<nat>, gaps: seq<Gap>)

  const NEW_PAGE := Browser(INITIAL, Absent, [], [])

  function Receive(b: Browser, item: Item): Browser {
    match item
    case State(seqLast, gap) =>
      var kept := if Restarted(b.m, seqLast) then b.(applied := [], gaps := []) else b;
      kept.(m := ApplyState(b.m, seqLast, gap), gaps := kept.gaps + (if gap.Some? then [gap.value] else []))
    case Published(f) =>
      Browser(ApplyFrame(b.m, f), Id(f.n), if f.n <= b.m.lastSeq then b.applied else b.applied + [f.n], b.gaps)
  }

  ghost predicate Reported(gaps: seq<Gap>, s: nat) {
    exists g :: g in gaps && g.from <= s <= g.to
  }

  /** Rows have unique keys: seqs of applied frames, and local ids not given out yet again. */
  ghost predicate RowKeysUnique(b: Browser) {
    && b.m.nextLocal < 0
    && (forall i :: 0 <= i < |b.m.rows| ==>
          || (b.m.rows[i].key > 0 && b.m.rows[i].key in b.applied)
          || b.m.nextLocal < b.m.rows[i].key < 0)
    && (forall i, j :: 0 <= i < j < |b.m.rows| ==> b.m.rows[i].key != b.m.rows[j].key)
  }

  ghost predicate Increasing(s: seq<nat>) {
    forall i, j :: 0 <= i < j < |s| ==> s[i] < s[j]
  }

  /** From the first frame it saw to its lastSeq the browser has applied every seq once, in
      order, or reported it missing, never both. */
  ghost predicate ExactCover(b: Browser) {
    && Increasing(b.applied)
    && (b.applied == [] <==> b.m.lastSeq == 0)
    && (b.applied != [] ==> b.applied[0] >= 1 && b.applied[|b.applied| - 1] == b.m.lastSeq)
    && (forall s :: b.applied != [] && b.applied[0] <= s <= b.m.lastSeq ==> (s in b.applied <==> !Reported(b.gaps, s)))
  }

  // ---- One browser, one hub, one seq space ----------------------------------------------------

  /** `conn` is the current stream, of which `got` items have arrived; `pos` is the seq before
      the next frame of the stream. */
  datatype World = World(log: Log, conn: Option<Conn>, got: nat, pos: nat, b: Browser)

  datatype Event =
    | Publishes(body: Body, bytes: nat)
    | Broadcasts(stateBytes: nat)
    | Delivers
    | Drains
    | Breaks                     // the stream is lost with whatever has not arrived
    | Connects(stateBytes: nat)
    | Reloads
    | Echoes(text: string)

  function Step(w: World, e: Event, limits: Limits): World {
    match e
    case Publishes(body, bytes) =>
      w.(log := Append(w.log, body, bytes, limits),
         conn := if w.conn.None? then None
                 else Some(Write(w.conn.value, Published(Frame(w.log.last + 1, body, bytes)), bytes, limits)))
    case Broadcasts(stateBytes) =>
      if w.conn.None? then w else w.(conn := Some(Write(w.conn.value, State(w.log.last, None), stateBytes, limits)))
    case Delivers =>
      if w.conn.None? || w.got >= |w.conn.value.out| then w
      else
        var item := w.conn.value.out[w.got];
        w.(got := w.got + 1, b := Receive(w.b, item), pos := if item.Published? then item.f.n else w.pos)
    case Drains =>
      if w.conn.None? then w else w.(conn := Some(w.conn.value.(buffered := 0, allowance := 0)))
    case Breaks => w.(conn := None)
    case Connects(stateBytes) =>
      if w.conn.Some? then w
      else
        var replay := |Replay(w.log, w.b.lastId)|;
        w.(conn := Some(Open(w.log, w.b.lastId, 0, stateBytes, limits)), got := 0,
           pos := if replay <= w.log.last then w.log.last - replay else 0)
    case Reloads => w.(conn := None, b := NEW_PAGE)
    case Echoes(text) => w.(b := w.b.(m := ApplyEcho(w.b.m, text)))
  }

  function Run(w: World, es: seq<Event>, limits: Limits): World
    decreases |es|
  {
    if es == [] then w else Run(Step(w, es[0], limits), es[1..], limits)
  }

  const START := World(NO_LOG, None, 0, 0, NEW_PAGE)

  /** The rest of a stream from position `p`: frames p+1, p+2, ... in order, and state frames
      that never claim less than what was sent before them. */
  ghost predicate Flow(rest: seq<Item>, p: nat, last: nat, closed: bool)
    decreases |rest|
  {
    if rest == [] then p <= last && (!closed ==> p == last)
    else match rest[0]
      case Published(f) => f.n == p + 1 && Flow(rest[1..], f.n, last, closed)
      case State(seqLast, gap) => gap == None && p <= seqLast && Flow(rest[1..], p, last, closed)
  }

  /** Between the browser's lastSeq and position `p` nothing is missing but what is reported. */
  ghost predicate Bridged(b: Browser, p: nat, pending: Option<Gap>) {
    && b.m.lastSeq <= p
    && (b.m.lastSeq == p || b.m.lastSeq == 0
         || (if pending.Some? then pending.value == Gap(b.m.lastSeq + 1, p) else Gap(b.m.lastSeq + 1, p) in b.gaps))
    && (pending.Some? ==> b.m.lastSeq > 0 && pending.value == Gap(b.m.lastSeq + 1, p))
  }

  ghost predicate Incoming(w: World) {
    w.conn.Some? ==>
      && w.got <= |w.conn.value.out|
      && (if w.got == 0 then
            && w.conn.value.out != [] && w.conn.value.out[0].State?
            && w.b.m.lastSeq <= w.conn.value.out[0].seqLast
            && Bridged(w.b, w.pos, w.conn.value.out[0].gap)
            && (w.conn.value.out[0].gap.Some? ==> w.pos < Min(w.log))
            && Flow(w.conn.value.out[1..], w.pos, w.log.last, w.conn.value.closed)
          else
            && Bridged(w.b, w.pos, None)
            && Flow(w.conn.value.out[w.got..], w.pos, w.log.last, w.conn.value.closed))
      && w.pos <= w.log.last
      && (forall g :: g in w.b.gaps ==> g.to <= w.pos)
  }

  /** A gap reported ahead of lastSeq starts right behind it and is gone from the buffer. */
  ghost predicate GapsSettled(b: Browser, min: nat) {
    && (b.gaps != [] ==> b.m.lastSeq > 0)
    && (forall g :: g in b.gaps ==> g.from > 0 && (g.to <= b.m.lastSeq || (g.from == b.m.lastSeq + 1 && g.to < min)))
  }

  ghost predicate Inv(w: World, limits: Limits) {
    && LogInv(w.log, limits)
    && w.b.m.lastSeq <= w.log.last
    && w.b.lastId == (if w.b.m.lastSeq == 0 then Absent else Id(w.b.m.lastSeq))
    && ExactCover(w.b) && RowKeysUnique(w.b)
    && GapsSettled(w.b, Min(w.log))
    && Incoming(w)
  }

  // ---- The stream ------------------------------------------------------------------------------------

  lemma {:induction false} FlowGrows(rest: seq<Item>, p: nat, last: nat, last': nat)
    requires Flow(rest, p, last, true) && last <= last'
    ensures Flow(rest, p, last', true)
    decreases |rest|
  {
    if rest != [] {
      FlowGrows(rest[1..], if rest[0].Published? then rest[0].f.n else p, last, last');
    }
  }

  lemma {:induction false} FlowCut(rest: seq<Item>, p: nat, last: nat, closed: bool)
    requires Flow(rest, p, last, closed)
    ensures Flow(rest, p, last, true) && p <= last
    decreases |rest|
  {
    if rest != [] {
      FlowCut(rest[1..], if rest[0].Published? then rest[0].f.n else p, last, closed);
    }
  }

  lemma {:induction false} FlowFrame(rest: seq<Item>, p: nat, last: nat, f: Frame, closed: bool)
    requires Flow(rest, p, last, false) && f.n == last + 1
    ensures Flow(rest + [Published(f)], p, last + 1, closed)
    decreases |rest|
  {
    var longer := rest + [Published(f)];
    if rest == [] {
      assert longer[1..] == [];
    } else {
      assert longer[1..] == rest[1..] + [Published(f)];
      FlowFrame(rest[1..], if rest[0].Published? then rest[0].f.n else p, last, f, closed);
    }
  }

  lemma {:induction false} FlowState(rest: seq<Item>, p: nat, last: nat, closed: bool)
    requires Flow(rest, p, last, false)
    ensures Flow(rest + [State(last, None)], p, last, closed)
    decreases |rest|
  {
    var longer := rest + [State(last, None)];
    if rest == [] {
      assert longer[1..] == [];
    } else {
      assert longer[1..] == rest[1..] + [State(last, None)];
      FlowState(rest[1..], if rest[0].Published? then rest[0].f.n else p, last, closed);
    }
  }

  lemma {:induction false} FlowItems(frames: seq<Frame>, p: nat, last: nat)
    requires IsRun(frames, p + 1) && p + |frames| == last
    ensures Flow(Items(frames), p, last, false)
    decreases |frames|
  {
    if frames != [] {
      assert Items(frames)[1..] == Items(frames[1..]);
      FlowItems(frames[1..], p + 1, last);
    }
  }

  lemma MinGrows(log: Log, body: Body, bytes: nat, limits: Limits)
    requires LogInv(log, limits)
    ensures Min(log) <= Min(Append(log, body, bytes, limits))
    ensures Append(log, body, bytes, limits).last == log.last + 1
  {
    var pushed := log.frames + [Frame(log.last + 1, body, bytes)];
    AppendInv(log, body, bytes, limits);
    TrimIsGreedy(pushed, limits);
  }

  function SeqsOf(frames: seq<Frame>): seq<nat> {
    seq(|frames|, i requires 0 <= i < |frames| => frames[i].n)
  }

  // ---- Each step keeps the invariant --------------------------------------------------------------------

  /** What is left of a stream, its state frame aside. */
  function Rest(w: World): seq<Item>
    requires w.conn.Some? && w.got <= |w.conn.value.out| && |w.conn.value.out| > 0
  {
    if w.got == 0 then w.conn.value.out[1..] else w.conn.value.out[w.got..]
  }

  lemma PublishKeeps(w: World, w': World, body: Body, bytes: nat, limits: Limits)
    requires Inv(w, limits) && w' == Step(w, Event.Publishes(body, bytes), limits)
    ensures Inv(w', limits)
  {
    AppendInv(w.log, body, bytes, limits);
    MinGrows(w.log, body, bytes, limits);
    if w.conn.Some? {
      var got := if w.got == 0 then 1 else w.got;
      StreamPublish(w.conn.value, w'.conn.value, got, w.pos, w.log.last, Frame(w.log.last + 1, body, bytes), limits);
    }
  }

  lemma StreamPublish(c: Conn, c': Conn, from: nat, p: nat, last: nat, f: Frame, limits: Limits)
    requires c' == Write(c, Published(f), f.bytes, limits) && f.n == last + 1
    requires from <= |c.out| && Flow(c.out[from..], p, last, c.closed)
    ensures from <= |c'.out| && |c.out| <= |c'.out| && c'.out[..|c.out|] == c.out
    ensures Flow(c'.out[from..], p, last + 1, c'.closed)
  {
    if c.closed {
      FlowGrows(c.out[from..], p, last, last + 1);
    } else {
      assert c'.out[from..] == c.out[from..] + [Published(f)];
      FlowFrame(c.out[from..], p, last, f, c'.closed);
    }
  }

  lemma StreamBroadcast(c: Conn, c': Conn, from: nat, p: nat, last: nat, bytes: nat, limits: Limits)
    requires c' == Write(c, State(last, None), bytes, limits)
    requires from <= |c.out| && Flow(c.out[from..], p, last, c.closed)
    ensures from <= |c'.out| && |c.out| <= |c'.out| && c'.out[..|c.out|] == c.out
    ensures Flow(c'.out[from..], p, last, c'.closed)
  {
    if !c.closed {
      assert c'.out[from..] == c.out[from..] + [State(last, None)];
      FlowState(c.out[from..], p, last, c'.closed);
    }
  }

  lemma BroadcastKeeps(w: World, w': World, stateBytes: nat, limits: Limits)
    requires Inv(w, limits) && w' == Step(w, Event.Broadcasts(stateBytes), limits)
    ensures Inv(w', limits)
  {
    if w.conn.Some? {
      var got := if w.got == 0 then 1 else w.got;
      StreamBroadcast(w.conn.value, w'.conn.value, got, w.pos, w.log.last, stateBytes, limits);
    }
  }

  lemma ConnectKeeps(w: World, w': World, stateBytes: nat, limits: Limits)
    requires Inv(w, limits) && w' == Step(w, Connects(stateBytes), limits) && limits.retryBytes <= limits.writable
    ensures Inv(w', limits)
  {
    if w.conn.None? {
      var h := w.b.lastId;
      AttachPartitions(w.log, h, limits);
      OpenNeverCutsTheReplay(w.log, h, 0, stateBytes, limits);
      FlowItems(Replay(w.log, h), w'.pos, w.log.last);
      assert w'.conn.value.out[1..] == Items(Replay(w.log, h));
    }
  }

  lemma HelloKeeps(w: World, w': World, limits: Limits)
    requires Inv(w, limits) && w' == Step(w, Delivers, limits)
    requires w.conn.Some? && w.got == 0
    ensures Inv(w', limits)
  {
    var item := w.conn.value.out[0];
    FlowCut(w.conn.value.out[1..], w.pos, w.log.last, w.conn.value.closed);
    if item.gap.Some? {
      assert w'.b.gaps == w.b.gaps + [item.gap.value];
      HelloGapKeeps(w.b, w'.b, item.gap.value, w.pos, Min(w.log));
    } else {
      assert w'.b.gaps == w.b.gaps;
    }
  }

  lemma HelloGapKeeps(b: Browser, b': Browser, g: Gap, p: nat, min: nat)
    requires ExactCover(b) && RowKeysUnique(b) && GapsSettled(b, min)
    requires b.m.lastSeq > 0 && g == Gap(b.m.lastSeq + 1, p) && p < min && b.m.lastSeq <= p
    requires b'.m == Push(b.m, Omitted(p + 1 - (b.m.lastSeq + 1)), None) && b'.applied == b.applied
             && b'.gaps == b.gaps + [g]
    ensures ExactCover(b') && RowKeysUnique(b') && GapsSettled(b', min) && g in b'.gaps
  {
    forall s | b'.applied != [] && b'.applied[0] <= s <= b'.m.lastSeq
      ensures s in b'.applied <==> !Reported(b'.gaps, s)
    {
      assert Reported(b'.gaps, s) <==> Reported(b.gaps, s) by {
        if Reported(b.gaps, s) { var x :| x in b.gaps && x.from <= s <= x.to; assert x in b'.gaps; }
      }
    }
    assert g in b'.gaps;
  }

  lemma FrameKeeps(w: World, w': World, limits: Limits)
    requires Inv(w, limits) && w' == Step(w, Delivers, limits)
    requires w.conn.Some? && 0 < w.got < |w.conn.value.out|
    ensures Inv(w', limits)
  {
    var item := w.conn.value.out[w.got];
    var rest := w.conn.value.out[w.got..];
    assert rest[0] == item && rest[1..] == w'.conn.value.out[w'.got..];
    FlowCut(rest[1..], w'.pos, w.log.last, w.conn.value.closed);
    if item.Published? {
      ApplyKeeps(w.b, w'.b, item.f, w.pos, Min(w.log));
    }
  }

  lemma PushKeyed(m: Model, text: RowText, k: nat, applied: seq<nat>, b: Browser)
    requires k > 0 && b == Browser(m, Absent, applied, []) && RowKeysUnique(b)
    requires forall x :: x in applied ==> x < k
    ensures RowKeysUnique(Browser(Push(m, text, Some(k)), Absent, applied + [k], []))
  {
    var b' := Browser(Push(m, text, Some(k)), Absent, applied + [k], []);
    assert k in b'.applied;
  }

  lemma PushLocal(b: Browser, b': Browser, text: RowText)
    requires RowKeysUnique(b) && b'.m == Push(b.m, text, None) && b'.applied == b.applied
    ensures RowKeysUnique(b')
  {}

  lemma ApplyRows(b: Browser, b': Browser, f: Frame)
    requires RowKeysUnique(b) && f.n > b.m.lastSeq && (forall x :: x in b.applied ==> x < f.n)
    requires b'.m == ApplyFrame(b.m, f) && b'.applied == b.applied + [f.n]
    ensures RowKeysUnique(b')
  {
    var m1 := b.m.(lastSeq := f.n);
    var b1 := Browser(m1, Absent, b.applied, []);
    assert RowKeysUnique(b1);
    assert RowKeysUnique(b1.(applied := b'.applied));
    match f.body
    case Notice(text) =>
      PushKeyed(m1, Line(text), f.n, b.applied, b1);
    case Wire(line, hint) =>
      if line.Some? { PushKeyed(m1, Line(line.value), f.n, b.applied, b1); }
      var m2 := if line.Some? then Push(m1, Line(line.value), Some(f.n)) else m1;
      var b2 := Browser(m2, Absent, b'.applied, []);
      assert RowKeysUnique(b2);
      PushLocal(b2, Browser(Push(m2, Line(RESUME_HINT), None), Absent, b'.applied, []), Line(RESUME_HINT));
  }

  lemma {:induction false} IncreasingBound(s: seq<nat>, x: nat)
    requires Increasing(s) && x in s
    ensures x <= s[|s| - 1]
  {
    var i :| 0 <= i < |s| && s[i] == x;
  }

  lemma ApplyCovers(b: Browser, b': Browser, f: Frame, p: nat, min: nat)
    requires ExactCover(b) && GapsSettled(b, min) && Bridged(b, p, None)
    requires f.n == p + 1 && (forall g :: g in b.gaps ==> g.to <= p)
    requires b'.applied == b.applied + [f.n] && b'.gaps == b.gaps && b'.m.lastSeq == f.n
    ensures ExactCover(b') && GapsSettled(b', min)
  {
    forall x | x in b.applied ensures x < f.n { IncreasingBound(b.applied, x); }
    forall s | b'.applied[0] <= s <= f.n ensures s in b'.applied <==> !Reported(b'.gaps, s) {
      assert b'.applied[|b.applied|] == f.n;
      if b.applied != [] && b.m.lastSeq < s <= p {
        assert Gap(b.m.lastSeq + 1, p) in b.gaps;
        assert s in b.applied ==> s <= b.m.lastSeq by { if s in b.applied { IncreasingBound(b.applied, s); } }
      }
    }
  }

  lemma ApplyKeeps(b: Browser, b': Browser, f: Frame, p: nat, min: nat)
    requires ExactCover(b) && RowKeysUnique(b) && GapsSettled(b, min) && Bridged(b, p, None)
    requires f.n == p + 1 && (forall g :: g in b.gaps ==> g.to <= p)
    requires b' == Receive(b, Published(f))
    ensures ExactCover(b') && RowKeysUnique(b') && GapsSettled(b', min) && b'.m.lastSeq == f.n
  {
    forall x | x in b.applied ensures x < f.n { IncreasingBound(b.applied, x); }
    ApplyRows(b, b', f);
    ApplyCovers(b, b', f, p, min);
  }

  lemma StepKeeps(w: World, e: Event, limits: Limits)
    requires Inv(w, limits) && limits.retryBytes <= limits.writable
    ensures Inv(Step(w, e, limits), limits)
  {
    hide Inv, Step;
    var w' := Step(w, e, limits);
    match e
    case Publishes(body, bytes) => PublishKeeps(w, w', body, bytes, limits);
    case Broadcasts(stateBytes) => BroadcastKeeps(w, w', stateBytes, limits);
    case Delivers => DeliverKeeps(w, w', limits);
    case Connects(stateBytes) => ConnectKeeps(w, w', stateBytes, limits);
    case _ => OtherKeeps(w, e, limits);
  }

  lemma DeliverKeeps(w: World, w': World, limits: Limits)
    requires Inv(w, limits) && w' == Step(w, Delivers, limits)
    ensures Inv(w', limits)
  {
    hide Inv;
    if w.conn.Some? && w.got < |w.conn.value.out| {
      if w.got == 0 { HelloKeeps(w, w', limits); } else { FrameKeeps(w, w', limits); }
    }
  }

  lemma OtherKeeps(w: World, e: Event, limits: Limits)
    requires Inv(w, limits) && (e.Drains? || e.Breaks? || e.Reloads? || e.Echoes?)
    ensures Inv(Step(w, e, limits), limits)
  {
    if e.Echoes? { PushLocal(w.b, Step(w, e, limits).b, Line(e.text)); }
  }

  lemma {:induction false} RunKeeps(w: World, es: seq<Event>, limits: Limits)
    requires Inv(w, limits) && limits.retryBytes <= limits.writable
    ensures Inv(Run(w, es, limits), limits)
    decreases |es|
  {
    if es != [] {
      StepKeeps(w, es[0], limits);
      RunKeeps(Step(w, es[0], limits), es[1..], limits);
    }
  }

  /** Replay is exact end to end: over every run of publishing, trimming, cuts, reconnects and
      reloads in one seq space, each seq from the browser's first frame to its lastSeq is
      applied exactly once, in increasing order, or lies in a reported gap, never both; row
      keys are unique; and the id the browser will reconnect with is its lastSeq. */
  lemma ReplayIsExact(es: seq<Event>, limits: Limits)
    requires limits.retryBytes <= limits.writable
    ensures var w := Run(START, es, limits);
            && ExactCover(w.b) && RowKeysUnique(w.b)
            && w.b.lastId == (if w.b.m.lastSeq == 0 then Absent else Id(w.b.m.lastSeq))
            && w.b.m.lastSeq <= w.log.last
  {
    RunKeeps(START, es, limits);
  }

  /** Once everything on an open stream has arrived, the browser is level with the log: what it
      does not show up to the last seq is reported. */
  lemma CaughtUp(es: seq<Event>, limits: Limits, s: nat)
    requires limits.retryBytes <= limits.writable
    requires var w := Run(START, es, limits);
             w.conn.Some? && !w.conn.value.closed && w.got == |w.conn.value.out|
    ensures var w := Run(START, es, limits);
            w.b.applied != [] && w.b.applied[0] <= s <= w.log.last ==> (s in w.b.applied <==> !Reported(w.b.gaps, s))
  {
    RunKeeps(START, es, limits);
  }

  // ---- Restarts of the hub ---------------------------------------------------------------------------------

  /** The hub and a browser that has kept its id in step take the same decision about a new seq
      space: the hub starts over (`n > seq`) exactly when the browser does (`seq_last < lastSeq`). */
  lemma RestartRecognisedAlike(log: Log, b: Browser)
    requires b.m.lastSeq > 0 && b.lastId == Id(b.m.lastSeq)
    ensures Restarted(b.m, log.last) <==> Point(log, b.lastId) != b.m.lastSeq
    ensures Restarted(b.m, log.last) ==>
              var b' := Receive(b, State(log.last, GapOf(log, b.lastId)));
              b'.m.lastSeq == 0 && b'.applied == [] && forall i :: 0 <= i < |b'.m.rows| ==> b'.m.rows[i].key < 0
  {}
}
