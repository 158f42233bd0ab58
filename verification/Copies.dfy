/** What is published arrives as it was: in the hub's buffer, on every stream
    (fronts/web/src/bff/sse.ts:109-230), and as rows of the page (fronts/web/src/ui/model.ts:60-169). */
module Copies {
  import opened Tables
  import opened Hub
  import R = Replica

  /** What was published, in order: the frame of seq s is the one at s - 1. */
  datatype Sent = Sent(body: Body, bytes: nat)

  ghost predicate Recorded(f: Frame, record: seq<Sent>) {
    1 <= f.n <= |record| && f.body == record[f.n - 1].body && f.bytes == record[f.n - 1].bytes
  }

  ghost predicate AllRecorded(frames: seq<Frame>, record: seq<Sent>) {
    forall i :: 0 <= i < |frames| ==> Recorded(frames[i], record)
  }

  /** The latest seq a stream has told: that of its last frame or state frame. */
  function LastTold(out: seq<Item>): nat {
    if out == [] then 0
    else match out[|out| - 1]
      case Published(f) => f.n
      case State(seqLast, _) => seqLast
  }

  /** Every frame on a stream is the published one; only the first item may report a gap, and every
      later state frame tells the seq that the stream has reached. */
  ghost predicate Told(out: seq<Item>, record: seq<Sent>) {
    forall i :: 0 <= i < |out| ==>
      match out[i]
      case Published(f) => Recorded(f, record)
      case State(seqLast, gap) =>
        && seqLast <= |record| && (gap.Some? ==> gap.value.from <= gap.value.to)
        && (i > 0 ==> gap == None && seqLast == LastTold(out[..i]))
  }

  lemma ToldSnoc(out: seq<Item>, item: Item, record: seq<Sent>)
    requires Told(out, record) && out != []
    requires match item
             case Published(f) => Recorded(f, record)
             case State(seqLast, gap) => seqLast <= |record| && gap == None && seqLast == LastTold(out)
    ensures Told(out + [item], record)
  {
    var longer := out + [item];
    assert longer[..|out|] == out;
    assert forall i :: 0 <= i < |out| ==> longer[i] == out[i] && longer[..i] == out[..i];
  }

  lemma ToldLonger(out: seq<Item>, record: seq<Sent>, sent: Sent)
    requires Told(out, record)
    ensures Told(out, record + [sent])
  {}

  lemma FramesLonger(frames: seq<Frame>, record: seq<Sent>, sent: Sent)
    requires AllRecorded(frames, record)
    ensures AllRecorded(frames, record + [sent])
  {}

  // ---- The buffer ---------------------------------------------------------------------------------------

  ghost predicate LogCopies(log: Log, record: seq<Sent>) {
    log.last == |record| && AllRecorded(log.frames, record)
  }

  lemma AppendCopies(log: Log, record: seq<Sent>, body: Body, bytes: nat, limits: Limits)
    requires LogCopies(log, record)
    ensures LogCopies(Append(log, body, bytes, limits), record + [Sent(body, bytes)])
    ensures Recorded(Frame(log.last + 1, body, bytes), record + [Sent(body, bytes)])
  {
    var all := log.frames + [Frame(log.last + 1, body, bytes)];
    FramesLonger(log.frames, record, Sent(body, bytes));
    TrimIsGreedy(all, limits);
  }

  // ---- Streams ------------------------------------------------------------------------------------------

  /** A stream that is not cut has told the last seq. */
  ghost predicate StreamCopies(conn: Conn, record: seq<Sent>) {
    conn.out != [] && Told(conn.out, record) && (!conn.closed ==> LastTold(conn.out) == |record|)
  }

  lemma PublishCopies(conn: Conn, record: seq<Sent>, body: Body, bytes: nat, limits: Limits)
    requires StreamCopies(conn, record)
    ensures var f := Frame(|record| + 1, body, bytes);
            StreamCopies(Write(conn, Published(f), bytes, limits), record + [Sent(body, bytes)])
  {
    ToldLonger(conn.out, record, Sent(body, bytes));
    ToldSnoc(conn.out, Published(Frame(|record| + 1, body, bytes)), record + [Sent(body, bytes)]);
  }

  lemma BroadcastCopies(conn: Conn, record: seq<Sent>, bytes: nat, limits: Limits)
    requires StreamCopies(conn, record)
    ensures StreamCopies(Write(conn, State(|record|, None), bytes, limits), record)
  {
    if !conn.closed { ToldSnoc(conn.out, State(|record|, None), record); }
  }

  lemma OpenCopies(log: Log, h: Header, cid: nat, stateBytes: nat, limits: Limits, record: seq<Sent>)
    requires LogCopies(log, record) && LogInv(log, limits) && limits.retryBytes <= limits.writable
    ensures StreamCopies(Open(log, h, cid, stateBytes, limits), record)
  {
    OpenNeverCutsTheReplay(log, h, cid, stateBytes, limits);
    AttachPartitions(log, h, limits);
    var replay, gap := Replay(log, h), GapOf(log, h);
    ReplayRecorded(log, replay, record);
    assert gap.Some? ==> gap.value.from <= gap.value.to;
    hide Open, Replay, GapOf, LogInv, LogCopies;
    OpeningTold(log.last, gap, replay, record);
  }

  lemma ReplayRecorded(log: Log, replay: seq<Frame>, record: seq<Sent>)
    requires LogCopies(log, record) && forall f :: f in replay ==> f in log.frames
    ensures AllRecorded(replay, record) && log.last == |record|
  {
    forall i | 0 <= i < |replay| ensures Recorded(replay[i], record) {
      assert replay[i] in log.frames;
      var j :| 0 <= j < |log.frames| && log.frames[j] == replay[i];
    }
  }

  /** A state frame and then a run of frames up to the last seq. */
  lemma OpeningTold(last: nat, gap: Option<Gap>, replay: seq<Frame>, record: seq<Sent>)
    requires last == |record| && AllRecorded(replay, record) && (gap.Some? ==> gap.value.from <= gap.value.to)
    requires IsRun(replay, last - |replay| + 1)
    ensures var out := [State(last, gap)] + Items(replay); Told(out, record) && LastTold(out) == |record|
  {
    var out := [State(last, gap)] + Items(replay);
    assert forall i :: 0 < i < |out| ==> out[i] == Published(replay[i - 1]);
    if replay != [] { assert out[|out| - 1] == Published(replay[|replay| - 1]); }
  }

  // ---- The hub ---------------------------------------------------------------------------------------------

  function RecordOf(es: seq<HubEvent>): seq<Sent> {
    if es == [] then []
    else (if es[0].Publishes? then [Sent(es[0].body, es[0].bytes)] else []) + RecordOf(es[1..])
  }

  ghost predicate HubCopies(h: HubState, record: seq<Sent>) {
    && LogCopies(h.log, record)
    && (forall tab :: tab in h.conns.at ==> StreamCopies(h.conns.at[tab], record))
  }

  lemma PublishesCopies(h: HubState, body: Body, bytes: nat, limits: Limits, record: seq<Sent>)
    requires HubCopies(h, record)
    ensures HubCopies(Publish(h, body, bytes, limits), record + [Sent(body, bytes)])
  {
    hide StreamCopies, LogCopies, Append, Write;
    AppendCopies(h.log, record, body, bytes, limits);
    LastIs(h.log, record);
    var h' := Publish(h, body, bytes, limits);
    forall tab | tab in h'.conns.at ensures StreamCopies(h'.conns.at[tab], record + [Sent(body, bytes)]) {
      PublishCopies(h.conns.at[tab], record, body, bytes, limits);
    }
  }

  lemma LastIs(log: Log, record: seq<Sent>)
    requires LogCopies(log, record)
    ensures log.last == |record|
  {}

  lemma BroadcastsCopies(h: HubState, stateBytes: nat, limits: Limits, record: seq<Sent>)
    requires HubCopies(h, record)
    ensures HubCopies(Broadcast(h, stateBytes, limits), record)
  {
    hide StreamCopies, LogCopies, Write;
    LastIs(h.log, record);
    var h' := Broadcast(h, stateBytes, limits);
    forall tab | tab in h'.conns.at ensures StreamCopies(h'.conns.at[tab], record) {
      BroadcastCopies(h.conns.at[tab], record, stateBytes, limits);
    }
  }

  lemma AttachesCopies(h: HubState, c: Controller, e: HubEvent, limits: Limits, record: seq<Sent>)
    requires HubInv(h, limits) && HubCopies(h, record) && limits.retryBytes <= limits.writable && e.Attaches?
    ensures HubCopies(HubStep(h, c, e, limits).0, record)
  {
    hide StreamCopies, LogCopies, Open, LogInv, ConnsInv;
    OpenCopies(h.log, e.header, h.nextCid, e.stateBytes, limits, record);
  }

  lemma DrainedCopies(conn: Conn, record: seq<Sent>)
    requires StreamCopies(conn, record)
    ensures StreamCopies(conn.(buffered := 0, allowance := 0), record)
  {
    hide Told, LastTold;
  }

  lemma RestCopies(h: HubState, c: Controller, e: HubEvent, limits: Limits, record: seq<Sent>)
    requires HubCopies(h, record) && !e.Publishes? && !e.Broadcasts? && !e.Attaches?
    ensures HubCopies(HubStep(h, c, e, limits).0, record)
  {
    hide StreamCopies, LogCopies;
    if e.Drains? && e.tab in h.conns.at { DrainedCopies(h.conns.at[e.tab], record); }
  }

  lemma StepCopies(h: HubState, c: Controller, e: HubEvent, limits: Limits, record: seq<Sent>)
    requires HubInv(h, limits) && HubCopies(h, record) && limits.retryBytes <= limits.writable
    ensures HubCopies(HubStep(h, c, e, limits).0,
                      record + if e.Publishes? then [Sent(e.body, e.bytes)] else [])
  {
    hide HubCopies, HubInv;
    assert record + [] == record;
    match e {
      case Publishes(body, bytes) => PublishesCopies(h, body, bytes, limits, record);
      case Broadcasts(stateBytes) => BroadcastsCopies(h, stateBytes, limits, record);
      case Attaches(_, _, _) => AttachesCopies(h, c, e, limits, record);
      case _ => RestCopies(h, c, e, limits, record);
    }
  }

  lemma {:induction false} HubRunCopies(h: HubState, c: Controller, es: seq<HubEvent>, limits: Limits,
                                        record: seq<Sent>)
    requires HubInv(h, limits) && HubCopies(h, record) && limits.retryBytes <= limits.writable
    ensures HubCopies(HubRun(h, c, es, limits).0, record + RecordOf(es))
    decreases |es|
  {
    hide HubInv, HubCopies, HubStep;
    if es == [] {
      assert record + [] == record;
    } else {
      var (h', c') := HubStep(h, c, es[0], limits);
      var more := if es[0].Publishes? then [Sent(es[0].body, es[0].bytes)] else [];
      HubStepKeeps(h, c, es[0], limits);
      StepCopies(h, c, es[0], limits, record);
      HubRunCopies(h', c', es[1..], limits, record + more);
      assert record + RecordOf(es) == (record + more) + RecordOf(es[1..]);
    }
  }

  /** Over every run of a hub: the seq counts what was published; each buffered frame, and each frame
      on each stream, sent live or replayed, is the one published under its seq; and a state frame
      tells how far its stream has got. */
  lemma HubShowsWhatWasPublished(c: Controller, es: seq<HubEvent>, limits: Limits)
    requires limits.retryBytes <= limits.writable
    ensures HubCopies(HubRun(FRESH_HUB, c, es, limits).0, RecordOf(es))
  {
    HubRunCopies(FRESH_HUB, c, es, limits, []);
    assert [] + RecordOf(es) == RecordOf(es);
  }

  // ---- The page ---------------------------------------------------------------------------------------------

  /** The line a published body has on the page, if any. */
  function LineOf(body: Body): Option<string> {
    match body
    case Notice(text) => Some(text)
    case Wire(line, _) => line
  }

  ghost predicate TurnEnd(body: Body) {
    body.Wire? && body.hint
  }

  ghost predicate HasKey(rows: seq<R.Row>, key: int) {
    exists i :: 0 <= i < |rows| && rows[i].key == key
  }

  /** The rows with a seq are, in ascending order, the lines of the frames applied. */
  ghost predicate LinesShown(rows: seq<R.Row>, applied: seq<nat>, record: seq<Sent>) {
    && (forall s :: s in applied ==> 1 <= s <= |record|)
    && (forall s :: s > 0 ==> (HasKey(rows, s) <==> s in applied && LineOf(record[s - 1].body).Some?))
    && (forall i :: 0 <= i < |rows| && rows[i].key > 0 ==>
          rows[i].key <= |record| && LineOf(record[rows[i].key - 1].body) != None
          && rows[i].text == R.Line(LineOf(record[rows[i].key - 1].body).value))
    && (forall i, j :: 0 <= i < j < |rows| && rows[i].key > 0 && rows[j].key > 0 ==> rows[i].key < rows[j].key)
  }

  /** The counts of the rows that stand for omitted frames. */
  function Omissions(rows: seq<R.Row>): seq<nat> {
    if rows == [] then []
    else Omissions(rows[..|rows| - 1]) + match rows[|rows| - 1].text case Omitted(n) => [n] case Line(_) => []
  }

  ghost predicate Counts(gaps: seq<Gap>, counts: seq<nat>) {
    && |counts| == |gaps|
    && forall k :: 0 <= k < |gaps| ==> gaps[k].from <= gaps[k].to && counts[k] == gaps[k].to - gaps[k].from + 1
  }

  /** Row i is a resume hint that stands behind every row up to seq s and before every later one. */
  ghost predicate HintAt(rows: seq<R.Row>, i: nat, s: nat) {
    && i < |rows| && rows[i].text == R.Line(R.RESUME_HINT)
    && (forall j :: 0 <= j < |rows| && 0 < rows[j].key <= s ==> j <= i)
    && (forall j :: 0 <= j < |rows| && rows[j].key > s ==> j > i)
  }

  /** Each turn end that asks for it is followed by a resume hint. */
  ghost predicate HintsShown(rows: seq<R.Row>, applied: seq<nat>, record: seq<Sent>) {
    forall s :: s in applied && 1 <= s <= |record| && TurnEnd(record[s - 1].body) ==> exists i :: HintAt(rows, i, s)
  }

  /** A row without a seq is an omission, the user's own input, or a resume hint for a turn end just
      applied that does not repeat the row before it. */
  ghost predicate LocalRow(rows: seq<R.Row>, i: nat, applied: seq<nat>, record: seq<Sent>, echoes: seq<string>)
    requires i < |rows|
  {
    || rows[i].text.Omitted?
    || rows[i].text.s in echoes
    || (&& (i > 0 ==> rows[i - 1].text != rows[i].text)
        && exists s :: s in applied && 1 <= s <= |record| && TurnEnd(record[s - 1].body) && HintAt(rows, i, s))
  }

  ghost predicate LocalsShown(rows: seq<R.Row>, applied: seq<nat>, record: seq<Sent>, echoes: seq<string>) {
    && (forall i :: 0 <= i < |rows| && rows[i].key <= 0 ==> LocalRow(rows, i, applied, record, echoes))
    && (forall t :: t in echoes ==> exists i :: 0 <= i < |rows| && rows[i].key < 0 && rows[i].text == R.Line(t))
  }

  ghost predicate PageCopies(b: R.Browser, record: seq<Sent>, echoes: seq<string>) {
    && LinesShown(b.m.rows, b.applied, record)
    && Counts(b.gaps, Omissions(b.m.rows))
    && HintsShown(b.m.rows, b.applied, record)
    && LocalsShown(b.m.rows, b.applied, record, echoes)
  }

  /** A row at the end leaves every hint where it is. */
  lemma HintStays(rows: seq<R.Row>, row: R.Row, i: nat, s: nat)
    requires HintAt(rows, i, s) && (row.key <= 0 || row.key > s)
    ensures HintAt(rows + [row], i, s)
  {
    assert forall j :: 0 <= j < |rows| ==> (rows + [row])[j] == rows[j];
  }

  lemma LocalStays(rows: seq<R.Row>, row: R.Row, i: nat, applied: seq<nat>, applied': seq<nat>, record: seq<Sent>,
                   echoes: seq<string>, echoes': seq<string>)
    requires i < |rows| && LocalRow(rows, i, applied, record, echoes)
    requires row.key > 0 ==> forall s :: s in applied ==> s < row.key
    requires forall s :: s in applied ==> s in applied'
    requires forall t :: t in echoes ==> t in echoes'
    ensures LocalRow(rows + [row], i, applied', record, echoes')
  {
    var rows' := rows + [row];
    assert rows'[i] == rows[i] && (i > 0 ==> rows'[i - 1] == rows[i - 1]);
    if !rows[i].text.Omitted? && rows[i].text.s !in echoes {
      var s :| s in applied && 1 <= s <= |record| && TurnEnd(record[s - 1].body) && HintAt(rows, i, s);
      HintStays(rows, row, i, s);
    }
  }

  lemma LocalsStay(rows: seq<R.Row>, row: R.Row, applied: seq<nat>, applied': seq<nat>, record: seq<Sent>,
                   echoes: seq<string>, echoes': seq<string>)
    requires LocalsShown(rows, applied, record, echoes)
    requires row.key > 0 ==> forall s :: s in applied ==> s < row.key
    requires forall s :: s in applied ==> s in applied'
    requires echoes' == echoes || (row.key < 0 && row.text.Line? && echoes' == echoes + [row.text.s])
    requires row.key <= 0 ==> LocalRow(rows + [row], |rows|, applied', record, echoes')
    ensures LocalsShown(rows + [row], applied', record, echoes')
  {
    var rows' := rows + [row];
    forall i | 0 <= i < |rows'| && rows'[i].key <= 0 ensures LocalRow(rows', i, applied', record, echoes') {
      if i < |rows| { LocalStays(rows, row, i, applied, applied', record, echoes, echoes'); }
    }
    forall t | t in echoes' ensures exists i :: 0 <= i < |rows'| && rows'[i].key < 0 && rows'[i].text == R.Line(t) {
      if t in echoes {
        var i :| 0 <= i < |rows| && rows[i].key < 0 && rows[i].text == R.Line(t);
        assert rows'[i] == rows[i];
      } else {
        assert rows'[|rows|] == row;
      }
    }
  }

  lemma HintsStay(rows: seq<R.Row>, row: R.Row, applied: seq<nat>, record: seq<Sent>)
    requires HintsShown(rows, applied, record)
    requires row.key > 0 ==> forall s :: s in applied ==> s < row.key
    ensures HintsShown(rows + [row], applied, record)
  {
    forall s | s in applied && 1 <= s <= |record| && TurnEnd(record[s - 1].body)
      ensures exists i :: HintAt(rows + [row], i, s)
    {
      var i :| HintAt(rows, i, s);
      HintStays(rows, row, i, s);
    }
  }

  lemma LinesStay(rows: seq<R.Row>, row: R.Row, applied: seq<nat>, record: seq<Sent>)
    requires LinesShown(rows, applied, record) && row.key < 0
    ensures LinesShown(rows + [row], applied, record)
  {
    var rows' := rows + [row];
    assert forall j :: 0 <= j < |rows| ==> rows'[j] == rows[j];
    forall s | s > 0 ensures HasKey(rows', s) <==> HasKey(rows, s) {
      if HasKey(rows, s) { var i :| 0 <= i < |rows| && rows[i].key == s; assert rows'[i].key == s; }
    }
  }

  lemma OmissionsSnoc(rows: seq<R.Row>, row: R.Row)
    ensures Omissions(rows + [row]) == Omissions(rows) + match row.text case Omitted(n) => [n] case Line(_) => []
  {
    assert (rows + [row])[..|rows|] == rows;
  }

  // ---- Each thing that arrives ---------------------------------------------------------------------------------

  /** A local row that is the user's input or an omission. */
  lemma LocalArrives(b: R.Browser, b': R.Browser, text: R.RowText, record: seq<Sent>, echoes: seq<string>,
                     echoes': seq<string>)
    requires PageCopies(b, record, echoes) && b.m.nextLocal < 0
    requires b'.m.rows == b.m.rows + [R.Row(b.m.nextLocal, text)] && b'.applied == b.applied
    requires if text.Line? then b'.gaps == b.gaps && echoes' == echoes + [text.s]
             else echoes' == echoes && |b'.gaps| == |b.gaps| + 1 && b'.gaps[..|b.gaps|] == b.gaps
                  && var g := b'.gaps[|b.gaps|]; g.from <= g.to && text.count == g.to - g.from + 1
    ensures PageCopies(b', record, echoes')
  {
    hide LinesShown, HintsShown, LocalsShown;
    var row := R.Row(b.m.nextLocal, text);
    LinesStay(b.m.rows, row, b.applied, record);
    HintsStay(b.m.rows, row, b.applied, record);
    OmissionsSnoc(b.m.rows, row);
    LocalsStay(b.m.rows, row, b.applied, b.applied, record, echoes, echoes');
    if text.Omitted? { assert forall k :: 0 <= k < |b.gaps| ==> b'.gaps[k] == b'.gaps[..|b.gaps|][k]; }
    else { assert Omissions(b.m.rows) + [] == Omissions(b.m.rows); }
  }

  /** The rows after a frame's own line, if it has one. */
  function WithLine(rows: seq<R.Row>, f: Frame): seq<R.Row> {
    rows + if LineOf(f.body).Some? then [R.Row(f.n, R.Line(LineOf(f.body).value))] else []
  }

  lemma LineArrives(rows: seq<R.Row>, applied: seq<nat>, f: Frame, record: seq<Sent>)
    requires LinesShown(rows, applied, record) && Recorded(f, record) && forall s :: s in applied ==> s < f.n
    ensures LinesShown(WithLine(rows, f), applied + [f.n], record)
  {
    var rows', applied' := WithLine(rows, f), applied + [f.n];
    assert forall j :: 0 <= j < |rows| ==> rows'[j] == rows[j];
    forall j | 0 <= j < |rows| && rows[j].key > 0 ensures rows[j].key < f.n { assert HasKey(rows, rows[j].key); }
    forall s | s > 0 ensures HasKey(rows', s) <==> s in applied' && LineOf(record[s - 1].body).Some? {
      if HasKey(rows, s) { var i :| 0 <= i < |rows| && rows[i].key == s; assert rows'[i].key == s; }
      if s == f.n && LineOf(f.body).Some? { assert rows'[|rows|].key == s; }
    }
  }

  lemma OmissionsOfLine(rows: seq<R.Row>, f: Frame)
    ensures Omissions(WithLine(rows, f)) == Omissions(rows)
  {
    if LineOf(f.body).Some? { OmissionsSnoc(rows, R.Row(f.n, R.Line(LineOf(f.body).value))); }
    else { assert WithLine(rows, f) == rows; }
  }

  lemma HintsBeforeLine(rows: seq<R.Row>, applied: seq<nat>, f: Frame, record: seq<Sent>)
    requires HintsShown(rows, applied, record) && forall s :: s in applied ==> s < f.n
    ensures HintsShown(WithLine(rows, f), applied, record)
  {
    if LineOf(f.body).Some? { HintsStay(rows, R.Row(f.n, R.Line(LineOf(f.body).value)), applied, record); }
    else { assert WithLine(rows, f) == rows; }
  }

  lemma LocalsBeforeLine(rows: seq<R.Row>, applied: seq<nat>, f: Frame, record: seq<Sent>, echoes: seq<string>)
    requires LocalsShown(rows, applied, record, echoes) && 0 < f.n && forall s :: s in applied ==> s < f.n
    ensures LocalsShown(WithLine(rows, f), applied + [f.n], record, echoes)
  {
    var applied' := applied + [f.n];
    if LineOf(f.body).Some? {
      LocalsStay(rows, R.Row(f.n, R.Line(LineOf(f.body).value)), applied, applied', record, echoes, echoes);
    } else {
      assert WithLine(rows, f) == rows;
      forall i | 0 <= i < |rows| && rows[i].key <= 0 ensures LocalRow(rows, i, applied', record, echoes) {
        if !rows[i].text.Omitted? && rows[i].text.s !in echoes {
          var s :| s in applied && 1 <= s <= |record| && TurnEnd(record[s - 1].body) && HintAt(rows, i, s);
          assert s in applied';
        }
      }
    }
  }

  /** The last row is a hint behind all seqs up to s. */
  lemma LastIsHint(rows: seq<R.Row>, s: nat)
    requires rows != [] && rows[|rows| - 1].text == R.Line(R.RESUME_HINT)
    requires forall j :: 0 <= j < |rows| ==> rows[j].key <= s
    ensures HintAt(rows, |rows| - 1, s)
  {}

  lemma HintsComplete(rows: seq<R.Row>, applied: seq<nat>, f: Frame, record: seq<Sent>)
    requires HintsShown(rows, applied, record) && Recorded(f, record)
    requires TurnEnd(f.body) ==> exists i :: HintAt(rows, i, f.n)
    ensures HintsShown(rows, applied + [f.n], record)
  {}

  /** What a new frame does to the rows: its own line, then a resume hint where one is due. */
  ghost predicate FrameRows(rows: seq<R.Row>, rows': seq<R.Row>, nextLocal: int, f: Frame) {
    var lined := WithLine(rows, f);
    var due := TurnEnd(f.body) && (lined == [] || lined[|lined| - 1].text != R.Line(R.RESUME_HINT));
    rows' == lined + if due then [R.Row(nextLocal, R.Line(R.RESUME_HINT))] else []
  }

  lemma FrameShows(m: R.Model, f: Frame)
    requires f.n > m.lastSeq
    ensures FrameRows(m.rows, R.ApplyFrame(m, f).rows, m.nextLocal, f)
  {}

  /** A frame moves the page on to its seq, and is what a reconnect goes on from; one that is not newer
      than what the page has shows nothing. */
  lemma FrameLaw(b: R.Browser, f: Frame)
    ensures var b' := R.Receive(b, Published(f));
            && b'.lastId == Id(f.n) && b'.gaps == b.gaps
            && (f.n <= b.m.lastSeq ==> b'.m == b.m && b'.applied == b.applied)
            && (f.n > b.m.lastSeq ==> b'.m.lastSeq == f.n && b'.applied == b.applied + [f.n]
                                      && b'.m.nextLocal <= b.m.nextLocal)
  {}

  /** A state frame leaves the page as it is but for the gap it reports; one that tells less than the
      page has shown comes from another seq space, and clears it first. */
  lemma StateLaw(b: R.Browser, seqLast: nat, gap: Option<Gap>)
    requires gap != None ==> gap.value.from <= gap.value.to
    ensures var b' := R.Receive(b, State(seqLast, gap));
            var anew := seqLast < b.m.lastSeq;
            && b'.lastId == b.lastId && b'.m.lastSeq == (if anew then 0 else b.m.lastSeq)
            && b'.applied == (if anew then [] else b.applied)
            && (gap == None ==> b'.m.rows == if anew then [] else b.m.rows)
            && (gap != None ==>
                  var row := R.Row(if anew then -1 else b.m.nextLocal, R.Omitted(gap.value.to - gap.value.from + 1));
                  b'.m.rows == (if anew then [] else b.m.rows) + [row])
  {}

  lemma FrameArrives(b: R.Browser, b': R.Browser, f: Frame, record: seq<Sent>, echoes: seq<string>)
    requires PageCopies(b, record, echoes) && Recorded(f, record) && b.m.nextLocal < 0
    requires forall s :: s in b.applied ==> s < f.n
    requires b'.applied == b.applied + [f.n] && b'.gaps == b.gaps
    requires FrameRows(b.m.rows, b'.m.rows, b.m.nextLocal, f)
    ensures PageCopies(b', record, echoes)
  {
    hide LinesShown, HintsShown, LocalsShown, Omissions, WithLine, HintAt, LocalRow;
    var rows, lined, rows', applied' := b.m.rows, WithLine(b.m.rows, f), b'.m.rows, b'.applied;
    LineArrives(rows, b.applied, f, record);
    OmissionsOfLine(rows, f);
    HintsBeforeLine(rows, b.applied, f, record);
    LocalsBeforeLine(rows, b.applied, f, record, echoes);
    KeysUpTo(lined, applied', f.n, record);
    if TurnEnd(f.body) && (lined == [] || lined[|lined| - 1].text != R.Line(R.RESUME_HINT)) {
      var hint := R.Row(b.m.nextLocal, R.Line(R.RESUME_HINT));
      assert rows' == lined + [hint];
      LinesStay(lined, hint, applied', record);
      OmissionsSnoc(lined, hint);
      HintsStay(lined, hint, b.applied, record);
      LastIsHint(rows', f.n);
      HintsComplete(rows', b.applied, f, record);
      HintIsLocal(lined, hint, applied', f, record, echoes);
      LocalsStay(lined, hint, applied', applied', record, echoes, echoes);
      assert Omissions(lined) + [] == Omissions(lined);
    } else {
      assert rows' == lined;
      if TurnEnd(f.body) { LastIsHint(lined, f.n); }
      HintsComplete(lined, b.applied, f, record);
    }
  }

  lemma KeysUpTo(rows: seq<R.Row>, applied: seq<nat>, n: nat, record: seq<Sent>)
    requires LinesShown(rows, applied, record) && forall s :: s in applied ==> s <= n
    ensures forall j :: 0 <= j < |rows| ==> rows[j].key <= n
  {
    forall j | 0 <= j < |rows| && rows[j].key > 0 ensures rows[j].key <= n { assert HasKey(rows, rows[j].key); }
  }

  lemma HintIsLocal(lined: seq<R.Row>, hint: R.Row, applied: seq<nat>, f: Frame, record: seq<Sent>, echoes: seq<string>)
    requires hint.text == R.Line(R.RESUME_HINT) && f.n in applied && Recorded(f, record) && TurnEnd(f.body)
    requires lined == [] || lined[|lined| - 1].text != hint.text
    requires HintAt(lined + [hint], |lined|, f.n)
    ensures LocalRow(lined + [hint], |lined|, applied, record, echoes)
  {}

  // ---- Every run of a page -----------------------------------------------------------------------------------

  function PageRecord(es: seq<R.Event>): seq<Sent> {
    if es == [] then []
    else (if es[0].Publishes? then [Sent(es[0].body, es[0].bytes)] else []) + PageRecord(es[1..])
  }

  /** What the user has entered since the page was loaded, `before` included. */
  function Entered(es: seq<R.Event>, before: seq<string>): seq<string>
    decreases |es|
  {
    if es == [] then before
    else Entered(es[1..], match es[0]
                          case Echoes(text) => before + [text]
                          case Reloads => []
                          case _ => before)
  }

  ghost predicate WorldCopies(w: R.World, record: seq<Sent>, echoes: seq<string>) {
    && LogCopies(w.log, record)
    && (w.conn.Some? ==> StreamCopies(w.conn.value, record))
    && PageCopies(w.b, record, echoes)
  }

  lemma PageLonger(b: R.Browser, record: seq<Sent>, sent: Sent, echoes: seq<string>)
    requires PageCopies(b, record, echoes)
    ensures PageCopies(b, record + [sent], echoes)
  {
    hide Omissions, HintAt, HasKey;
    var longer := record + [sent];
    assert forall i :: 0 <= i < |record| ==> longer[i] == record[i];
    forall i | 0 <= i < |b.m.rows| && b.m.rows[i].key <= 0 ensures LocalRow(b.m.rows, i, b.applied, longer, echoes) {
      assert LocalRow(b.m.rows, i, b.applied, record, echoes);
    }
  }

  lemma PublishReaches(w: R.World, w': R.World, body: Body, bytes: nat, limits: Limits, record: seq<Sent>,
                       echoes: seq<string>)
    requires WorldCopies(w, record, echoes) && w' == R.Step(w, R.Event.Publishes(body, bytes), limits)
    ensures WorldCopies(w', record + [Sent(body, bytes)], echoes)
  {
    hide StreamCopies, LogCopies, PageCopies, Append, Write;
    LastIs(w.log, record);
    AppendCopies(w.log, record, body, bytes, limits);
    if w.conn.Some? { PublishCopies(w.conn.value, record, body, bytes, limits); }
    PageLonger(w.b, record, Sent(body, bytes), echoes);
  }

  lemma StreamReaches(w: R.World, e: R.Event, limits: Limits, record: seq<Sent>, echoes: seq<string>)
    requires R.Inv(w, limits) && WorldCopies(w, record, echoes) && limits.retryBytes <= limits.writable
    requires e.Broadcasts? || e.Connects? || e.Drains? || e.Breaks?
    ensures WorldCopies(R.Step(w, e, limits), record, echoes)
  {
    hide StreamCopies, LogCopies, PageCopies, Open, Write;
    LastIs(w.log, record);
    if e.Broadcasts? && w.conn.Some? { BroadcastCopies(w.conn.value, record, e.stateBytes, limits); }
    if e.Connects? { OpenCopies(w.log, w.b.lastId, 0, e.stateBytes, limits, record); }
    if e.Drains? && w.conn.Some? { DrainedCopies(w.conn.value, record); }
  }

  /** What the next item is for a page that has kept its place. */
  lemma NextItem(w: R.World, limits: Limits)
    requires R.Inv(w, limits) && w.conn.Some? && w.got < |w.conn.value.out|
    ensures w.b.m.nextLocal < 0
    ensures match w.conn.value.out[w.got]
            case State(seqLast, gap) => !R.Restarted(w.b.m, seqLast)
            case Published(f) => f.n > w.b.m.lastSeq && forall s :: s in w.b.applied ==> s < f.n
  {
    var rest := w.conn.value.out[w.got..];
    assert rest[0] == w.conn.value.out[w.got];
    forall s | s in w.b.applied ensures s <= w.b.m.lastSeq { R.IncreasingBound(w.b.applied, s); }
  }

  lemma ItemTold(conn: Conn, record: seq<Sent>, i: nat)
    requires StreamCopies(conn, record) && i < |conn.out|
    ensures match conn.out[i]
            case Published(f) => Recorded(f, record)
            case State(_, gap) => gap.Some? ==> gap.value.from <= gap.value.to
  {}

  lemma DeliverReaches(w: R.World, limits: Limits, record: seq<Sent>, echoes: seq<string>)
    requires R.Inv(w, limits) && WorldCopies(w, record, echoes)
    ensures WorldCopies(R.Step(w, R.Delivers, limits), record, echoes)
  {
    if w.conn.Some? && w.got < |w.conn.value.out| {
      NextItem(w, limits);
      ItemTold(w.conn.value, record, w.got);
      hide StreamCopies, LogCopies, PageCopies, FrameRows, R.Inv, R.ApplyFrame;
      var b' := R.Receive(w.b, w.conn.value.out[w.got]);
      match w.conn.value.out[w.got] {
        case State(seqLast, gap) =>
          if gap.Some? { LocalArrives(w.b, b', R.Omitted(gap.value.to - gap.value.from + 1), record, echoes, echoes); }
          else { SamePage(w.b, b', record, echoes); }
        case Published(f) =>
          FrameShows(w.b.m, f);
          FrameArrives(w.b, b', f, record, echoes);
      }
    }
  }

  lemma SamePage(b: R.Browser, b': R.Browser, record: seq<Sent>, echoes: seq<string>)
    requires PageCopies(b, record, echoes) && b'.m == b.m && b'.applied == b.applied && b'.gaps == b.gaps + []
    ensures PageCopies(b', record, echoes)
  {
    assert b.gaps + [] == b.gaps;
  }

  lemma EmptyPage(record: seq<Sent>)
    ensures PageCopies(R.NEW_PAGE, record, [])
  {}

  lemma EchoReaches(w: R.World, text: string, limits: Limits, record: seq<Sent>, echoes: seq<string>)
    requires R.Inv(w, limits) && WorldCopies(w, record, echoes)
    ensures WorldCopies(R.Step(w, R.Echoes(text), limits), record, echoes + [text])
  {
    hide StreamCopies, LogCopies, PageCopies;
    LocalArrives(w.b, R.Step(w, R.Echoes(text), limits).b, R.Line(text), record, echoes, echoes + [text]);
  }

  lemma {:induction false} PageRunCopies(w: R.World, es: seq<R.Event>, limits: Limits, record: seq<Sent>,
                                         echoes: seq<string>)
    requires R.Inv(w, limits) && WorldCopies(w, record, echoes) && limits.retryBytes <= limits.writable
    ensures WorldCopies(R.Run(w, es, limits), record + PageRecord(es), Entered(es, echoes))
    decreases |es|
  {
    hide WorldCopies, R.Inv, R.Step;
    if es == [] {
      assert record + [] == record;
    } else {
      R.StepKeeps(w, es[0], limits);
      var w' := R.Step(w, es[0], limits);
      var more := if es[0].Publishes? then [Sent(es[0].body, es[0].bytes)] else [];
      assert record + [] == record;
      var echoes' := OneReaches(w, es[0], limits, record, echoes);
      PageRunCopies(w', es[1..], limits, record + more, echoes');
      assert record + PageRecord(es) == (record + more) + PageRecord(es[1..]);
    }
  }

  lemma OneReaches(w: R.World, e: R.Event, limits: Limits, record: seq<Sent>, echoes: seq<string>)
    returns (echoes': seq<string>)
    requires R.Inv(w, limits) && WorldCopies(w, record, echoes) && limits.retryBytes <= limits.writable
    ensures echoes' == match e case Echoes(text) => echoes + [text] case Reloads => [] case _ => echoes
    ensures WorldCopies(R.Step(w, e, limits), record + (if e.Publishes? then [Sent(e.body, e.bytes)] else []), echoes')
  {
    hide R.Inv, PageCopies, LogCopies, StreamCopies;
    assert record + [] == record;
    echoes' := match e case Echoes(text) => echoes + [text] case Reloads => [] case _ => echoes;
    match e {
      case Publishes(body, bytes) => PublishReaches(w, R.Step(w, e, limits), body, bytes, limits, record, echoes);
      case Delivers => DeliverReaches(w, limits, record, echoes);
      case Reloads => EmptyPage(record);
      case Echoes(text) => EchoReaches(w, text, limits, record, echoes);
      case _ => StreamReaches(w, e, limits, record, echoes);
    }
  }

  /** Over every run of one page and one hub: the rows with a seq are the lines of exactly the frames
      applied, as they were published, in order; there is one row for each reported gap, with its
      count; each turn end is followed by a resume hint, unless the row before it is one already;
      and every other row is what the user entered. */
  lemma PageShowsWhatWasPublished(es: seq<R.Event>, limits: Limits)
    requires limits.retryBytes <= limits.writable
    ensures var w := R.Run(R.START, es, limits); PageCopies(w.b, PageRecord(es), Entered(es, []))
    ensures LogCopies(R.Run(R.START, es, limits).log, PageRecord(es))
  {
    EmptyPage([]);
    PageRunCopies(R.START, es, limits, [], []);
    assert [] + PageRecord(es) == PageRecord(es);
  }
}
