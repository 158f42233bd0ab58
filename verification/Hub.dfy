/** The event hub of the Web BFF (fronts/web/src/bff/sse.ts): one seq space, a
    trimmed log of frames, and one stream per tab; together with the controller
    tab it notifies (fronts/web/src/bff/state.ts:334-382).

    A stream is the sequence of items written to it. How much of it the socket
    still buffers is tracked by its upper bound: everything written since the
    last drain. */
module Hub {
  import opened Tables

  // ---- Frames and the log --------------------------------------------------------------------

  /** What the browser makes of a frame: `line` is the timeline text, if any, and `hint` says
      that the event is a turn end that asks for the resume hint. */
  datatype Body = Wire(line: Option<string>, hint: bool) | Notice(text: string)

  datatype Frame = Frame(n: nat, body: Body, bytes: nat)

  datatype Log = Log(frames: seq<Frame>, bytes: nat, last: nat)

  datatype Limits = Limits(maxFrames: nat, maxBytes: nat, maxStreams: nat, writable: nat, retryBytes: nat)

  const NO_LOG := Log([], 0, 0)

  function SumBytes(frames: seq<Frame>): nat {
    if frames == [] then 0 else frames[0].bytes + SumBytes(frames[1..])
  }

  predicate OverLimit(frames: seq<Frame>, bytes: nat, limits: Limits) {
    |frames| > limits.maxFrames || (bytes > limits.maxBytes && |frames| > 1)
  }

  /** Drop frames from the front while over a limit. */
  function Trim(frames: seq<Frame>, limits: Limits): seq<Frame> {
    if OverLimit(frames, SumBytes(frames), limits) then Trim(frames[1..], limits) else frames
  }

  function Append(log: Log, body: Body, bytes: nat, limits: Limits): Log {
    var kept := Trim(log.frames + [Frame(log.last + 1, body, bytes)], limits);
    Log(kept, SumBytes(kept), log.last + 1)
  }

  /** The buffer is the end of the log: consecutive seqs up to `last`, their exact size, within
      both limits unless a single frame alone is too large. */
  ghost predicate LogInv(log: Log, limits: Limits) {
    && EndsAt(log.frames, log.last)
    && log.bytes == SumBytes(log.frames)
    && |log.frames| <= limits.maxFrames
    && (log.bytes <= limits.maxBytes || |log.frames| == 1)
  }

  lemma {:induction false} TrimIsGreedy(frames: seq<Frame>, limits: Limits)
    ensures |Trim(frames, limits)| <= |frames| && Trim(frames, limits) == frames[|frames| - |Trim(frames, limits)|..]
    ensures forall k :: 0 <= k < |frames| - |Trim(frames, limits)| ==>
              OverLimit(frames[k..], SumBytes(frames[k..]), limits)
  {
    if OverLimit(frames, SumBytes(frames), limits) {
      TrimIsGreedy(frames[1..], limits);
      forall k | 0 <= k < |frames| - |Trim(frames, limits)|
        ensures OverLimit(frames[k..], SumBytes(frames[k..]), limits)
      {
        if k > 0 {
          assert frames[1..][k - 1..] == frames[k..];
        } else {
          assert frames[0..] == frames;
        }
      }
    }
  }

  ghost predicate EndsAt(frames: seq<Frame>, last: nat) {
    |frames| <= last && (forall i :: 0 <= i < |frames| ==> frames[i].n == last - |frames| + 1 + i)
  }

  lemma {:induction false} TrimInv(frames: seq<Frame>, last: nat, limits: Limits)
    requires EndsAt(frames, last)
    ensures LogInv(Log(Trim(frames, limits), SumBytes(Trim(frames, limits)), last), limits)
    decreases |frames|
  {
    if OverLimit(frames, SumBytes(frames), limits) {
      TrimInv(frames[1..], last, limits);
    } else {
      assert frames == [] ==> SumBytes(frames) == 0;
    }
  }

  lemma PushedEndsAt(frames: seq<Frame>, last: nat, f: Frame)
    requires EndsAt(frames, last) && f.n == last + 1
    ensures EndsAt(frames + [f], last + 1)
  {}

  lemma AppendInv(log: Log, body: Body, bytes: nat, limits: Limits)
    requires EndsAt(log.frames, log.last)
    ensures LogInv(Append(log, body, bytes, limits), limits) && Append(log, body, bytes, limits).last == log.last + 1
  {
    var pushed := log.frames + [Frame(log.last + 1, body, bytes)];
    PushedEndsAt(log.frames, log.last, Frame(log.last + 1, body, bytes));
    assert EndsAt(pushed, log.last + 1);
    TrimInv(pushed, log.last + 1, limits);
    var kept := Trim(pushed, limits);
    assert LogInv(Log(kept, SumBytes(kept), log.last + 1), limits);
    assert Append(log, body, bytes, limits) == Log(kept, SumBytes(kept), log.last + 1);
  }

  /** Trimming loses a frame only when every longer suffix is over a limit, and never loses the
      newest one while any frame may be kept. */
  lemma TrimKeepsLongestSuffix(pushed: seq<Frame>, limits: Limits)
    requires pushed != []
    ensures var kept := Trim(pushed, limits);
            && |kept| <= |pushed| && kept == pushed[|pushed| - |kept|..]
            && (forall k :: 0 <= k < |pushed| - |kept| ==> OverLimit(pushed[k..], SumBytes(pushed[k..]), limits))
            && (limits.maxFrames >= 1 ==> kept != [] && kept[|kept| - 1] == pushed[|pushed| - 1])
  {
    TrimIsGreedy(pushed, limits);
    if limits.maxFrames >= 1 { NotAllTrimmed(pushed, limits); }
  }

  lemma {:induction false} NotAllTrimmed(pushed: seq<Frame>, limits: Limits)
    requires pushed != [] && limits.maxFrames >= 1
    ensures Trim(pushed, limits) != []
    decreases |pushed|
  {
    if OverLimit(pushed, SumBytes(pushed), limits) {
      NotAllTrimmed(pushed[1..], limits);
    }
  }

  // ---- Attaching -----------------------------------------------------------------------------

  /** The Last-Event-ID header: absent, not a number, or a seq. */
  datatype Header = Absent | Garbled | Id(n: nat)

  datatype Gap = Gap(from: nat, to: nat)

  /** The seq the new stream continues from; a number from another seq space counts as 0. */
  function Point(log: Log, h: Header): (r: nat)
    ensures r <= log.last
  {
    if h.Id? && h.n <= log.last then h.n else 0
  }

  function Min(log: Log): nat {
    if log.frames != [] then log.frames[0].n else log.last + 1
  }

  /** A first connect missed nothing, so a trimmed front is no gap. */
  function GapOf(log: Log, h: Header): Option<Gap> {
    if !h.Absent? && Point(log, h) + 1 < Min(log) then Some(Gap(Point(log, h) + 1, Min(log) - 1)) else None
  }

  function Newer(frames: seq<Frame>, n: nat): seq<Frame> {
    if frames == [] then []
    else if frames[0].n > n then [frames[0]] + Newer(frames[1..], n)
    else Newer(frames[1..], n)
  }

  function Replay(log: Log, h: Header): seq<Frame> {
    if GapOf(log, h).Some? then log.frames else Newer(log.frames, Point(log, h))
  }

  lemma {:induction false} NewerIsSuffix(frames: seq<Frame>, first: nat, n: nat)
    requires forall i :: 0 <= i < |frames| ==> frames[i].n == first + i
    ensures Newer(frames, n) == if n < first then frames
                                else if n - first + 1 <= |frames| then frames[n - first + 1..]
                                else []
  {
    if frames != [] {
      NewerIsSuffix(frames[1..], first + 1, n);
    }
  }

  ghost predicate InGap(g: Option<Gap>, s: int) {
    g.Some? && g.value.from <= s <= g.value.to
  }

  /** Frames with consecutive seqs starting at `first`. */
  ghost predicate IsRun(frames: seq<Frame>, first: int) {
    forall i :: 0 <= i < |frames| ==> frames[i].n == first + i
  }

  /** On attach the reported gap and the replay split (n, last] exactly: the gap first, then a
      run of buffered frames up to `last`. Without a header the replay is the whole buffer. */
  lemma AttachPartitions(log: Log, h: Header, limits: Limits)
    requires LogInv(log, limits)
    ensures |Replay(log, h)| <= log.last
    ensures var n := Point(log, h);
            var g := GapOf(log, h);
            var first := log.last - |Replay(log, h)| + 1;
            && IsRun(Replay(log, h), first)
            && (forall f :: f in Replay(log, h) ==> f in log.frames)
            && (!h.Absent? ==> forall s :: n < s <= log.last ==> (InGap(g, s) <==> s < first))
            && (!h.Absent? ==> forall s :: InGap(g, s) ==> n < s <= log.last)
            && (!h.Absent? ==> first == if g.Some? then g.value.to + 1 else n + 1)
            && (h.Absent? ==> g == None && Replay(log, h) == log.frames)
  {
    NewerIsSuffix(log.frames, log.last - |log.frames| + 1, Point(log, h));
  }

  // ---- Streams ---------------------------------------------------------------------------------

  datatype Item = State(seqLast: nat, gap: Option<Gap>) | Published(f: Frame)

  /** `cid` tells two streams of one tab apart. */
  datatype Conn = Conn(cid: nat, closed: bool, out: seq<Item>, buffered: nat, allowance: nat)

  /** Write or drop; a stream that cannot keep up is cut after the write. */
  function Write(conn: Conn, item: Item, bytes: nat, limits: Limits): Conn {
    if conn.closed then conn
    else
      var c := conn.(out := conn.out + [item], buffered := conn.buffered + bytes);
      c.(closed := c.buffered > limits.writable + c.allowance)
  }

  function WriteFrames(conn: Conn, frames: seq<Frame>, limits: Limits): Conn
    decreases |frames|
  {
    if frames == [] then conn
    else WriteFrames(Write(conn, Published(frames[0]), frames[0].bytes, limits), frames[1..], limits)
  }

  /** A new stream: the retry line, one state frame, then the replay, with room for both. */
  function Open(log: Log, h: Header, cid: nat, stateBytes: nat, limits: Limits): Conn {
    var blank := Conn(cid, false, [], limits.retryBytes, stateBytes + SumBytes(Replay(log, h)));
    WriteFrames(Write(blank, State(log.last, GapOf(log, h)), stateBytes, limits), Replay(log, h), limits)
  }

  function Items(frames: seq<Frame>): (r: seq<Item>)
    ensures |r| == |frames|
    ensures forall i :: 0 <= i < |frames| ==> r[i] == Published(frames[i])
  {
    seq(|frames|, i requires 0 <= i < |frames| => Published(frames[i]))
  }

  lemma {:induction false} WriteFramesFits(conn: Conn, frames: seq<Frame>, limits: Limits)
    requires !conn.closed && conn.buffered + SumBytes(frames) <= limits.writable + conn.allowance
    ensures WriteFrames(conn, frames, limits)
            == conn.(out := conn.out + Items(frames), buffered := conn.buffered + SumBytes(frames))
    decreases |frames|
  {
    if frames == [] {
      assert conn.out + Items(frames) == conn.out;
    } else {
      var c := Write(conn, Published(frames[0]), frames[0].bytes, limits);
      WriteFramesFits(c, frames[1..], limits);
      assert conn.out + Items(frames) == c.out + Items(frames[1..]);
    }
  }

  /** The initial replay is never cut, however large: the stream starts open, with the state
      frame first and the replay right behind it. */
  lemma OpenNeverCutsTheReplay(log: Log, h: Header, cid: nat, stateBytes: nat, limits: Limits)
    requires limits.retryBytes <= limits.writable
    ensures var c := Open(log, h, cid, stateBytes, limits);
            !c.closed && c.out == [State(log.last, GapOf(log, h))] + Items(Replay(log, h))
  {
    var blank := Conn(cid, false, [], limits.retryBytes, stateBytes + SumBytes(Replay(log, h)));
    WriteFramesFits(Write(blank, State(log.last, GapOf(log, h)), stateBytes, limits), Replay(log, h), limits);
  }

  /** The seqs of the frames written to a stream. */
  function Seqs(out: seq<Item>): seq<nat> {
    if out == [] then []
    else Seqs(out[..|out| - 1]) + (match out[|out| - 1] case Published(f) => [f.n] case _ => [])
  }

  ghost predicate Consecutive(s: seq<nat>) {
    forall i :: 0 <= i < |s| ==> s[i] == s[0] + i
  }

  /** What a stream has shown is a run without holes, even if the stream was cut; while it is
      open, the run reaches the last seq. */
  ghost predicate HoleFree(conn: Conn, last: nat) {
    && Consecutive(Seqs(conn.out))
    && (forall s :: s in Seqs(conn.out) ==> s <= last)
    && (!conn.closed && Seqs(conn.out) != [] ==> Seqs(conn.out)[|Seqs(conn.out)| - 1] == last)
  }

  lemma SeqsAppend(out: seq<Item>, item: Item)
    ensures Seqs(out + [item]) == Seqs(out) + (match item case Published(f) => [f.n] case _ => [])
  {
    assert (out + [item])[..|out|] == out;
  }

  lemma ConsecutiveExtends(s: seq<nat>, last: nat)
    requires Consecutive(s) && (s == [] || s[|s| - 1] == last)
    requires forall x :: x in s ==> x <= last
    ensures var t := s + [last + 1]; Consecutive(t) && (forall x :: x in t ==> x <= last + 1)
  {}

  lemma WriteKeepsHoleFree(conn: Conn, conn': Conn, f: Frame, last: nat, limits: Limits)
    requires HoleFree(conn, last) && f.n == last + 1 && conn' == Write(conn, Published(f), f.bytes, limits)
    ensures HoleFree(conn', last + 1)
  {
    SeqsAppend(conn.out, Published(f));
    if !conn.closed { ConsecutiveExtends(Seqs(conn.out), last); }
  }

  lemma StateKeepsHoleFree(conn: Conn, item: Item, bytes: nat, last: nat, limits: Limits)
    requires HoleFree(conn, last) && !item.Published?
    ensures HoleFree(Write(conn, item, bytes, limits), last)
  {
    SeqsAppend(conn.out, item);
  }

  lemma {:induction false} RunSeqs(head: Item, frames: seq<Frame>, first: nat)
    requires IsRun(frames, first) && !head.Published?
    ensures Seqs([head] + Items(frames)) == seq(|frames|, i => first + i)
  {
    if frames == [] {
      assert [head] + Items(frames) == [] + [head];
      SeqsAppend([], head);
    } else {
      var k := |frames| - 1;
      RunSeqs(head, frames[..k], first);
      assert [head] + Items(frames) == ([head] + Items(frames[..k])) + [Published(frames[k])];
      SeqsAppend([head] + Items(frames[..k]), Published(frames[k]));
    }
  }

  lemma OpenHoleFree(log: Log, h: Header, cid: nat, stateBytes: nat, limits: Limits)
    requires LogInv(log, limits) && limits.retryBytes <= limits.writable
    ensures HoleFree(Open(log, h, cid, stateBytes, limits), log.last)
  {
    OpenNeverCutsTheReplay(log, h, cid, stateBytes, limits);
    AttachPartitions(log, h, limits);
    RunSeqs(State(log.last, GapOf(log, h)), Replay(log, h), log.last - |Replay(log, h)| + 1);
  }

  // ---- The controller tab -------------------------------------------------------------------------

  datatype Controller = Init | Nobody | Held(tab: string) | Orphaned(tab: string)

  /** A tab got its first stream. */
  function Connected(c: Controller, tab: string): Controller {
    if c.Init? || c == Orphaned(tab) then Held(tab) else c
  }

  /** A tab's stream ended and was not replaced; the grace timer starts for the controller. */
  function Disconnected(c: Controller, tab: string): Controller {
    if c == Held(tab) then Orphaned(tab) else c
  }

  function GraceOver(c: Controller, tab: string): Controller {
    if c == Orphaned(tab) then Nobody else c
  }

  /** None means 409 tab_not_connected. */
  function Claimed(c: Controller, tab: string, connected: bool, force: bool): (Controller, Option<bool>) {
    if !connected then (c, None)
    else if c.Held? && c.tab == tab then (c, Some(true))
    else if c.Held? && !force then (c, Some(false))
    else (Held(tab), Some(true))
  }

  class TabControl {
    var controller: Controller

    constructor ()
      ensures controller == Init
    {
      controller := Init;
    }

    method TabConnected(tab: string)
      modifies this
      ensures controller == Connected(old(controller), tab)
    {
      if controller.Init? {
        controller := Held(tab);
      } else if controller.Orphaned? && controller.tab == tab {
        controller := Held(tab);
      }
    }

    method TabDisconnected(tab: string)
      modifies this
      ensures controller == Disconnected(old(controller), tab)
    {
      if !controller.Held? || controller.tab != tab { return; }
      controller := Orphaned(tab);
    }

    /** Control ends only for the tab that lost its last stream and has not come back: a tab that
        holds control keeps it, and the controller agrees with the registered streams if it did. */
    method GraceTimer(tab: string)
      modifies this
      ensures controller == GraceOver(old(controller), tab)
      ensures controller != old(controller) ==> old(controller) == Orphaned(tab) && controller == Nobody
      ensures old(controller).Held? ==> controller == old(controller)
      ensures controller != Orphaned(tab)
      ensures forall tabs :: Agree(old(controller), tabs) ==> Agree(controller, tabs)
    {
      if controller.Orphaned? && controller.tab == tab { controller := Nobody; }
    }

    method Claim(tab: string, connected: bool, force: bool) returns (answer: Option<bool>)
      modifies this
      ensures (controller, answer) == Claimed(old(controller), tab, connected, force)
    {
      if !connected { return None; }
      if controller.Held? {
        if controller.tab == tab { return Some(true); }
        if !force { return Some(false); }
      }
      controller := Held(tab);
      return Some(true);
    }
  }

  // ---- The hub as a value -----------------------------------------------------------------------------

  type Conns = Table<string, Conn>

  datatype HubState = HubState(log: Log, conns: Conns, nextCid: nat, shut: bool)

  const FRESH_HUB := HubState(NO_LOG, Empty(), 0, false)

  function WriteAll(conns: Conns, item: Item, bytes: nat, limits: Limits): Conns {
    Table(conns.order, map tab | tab in conns.at :: Write(conns.at[tab], item, bytes, limits))
  }

  function Publish(h: HubState, body: Body, bytes: nat, limits: Limits): HubState {
    h.(log := Append(h.log, body, bytes, limits),
       conns := WriteAll(h.conns, Published(Frame(h.log.last + 1, body, bytes)), bytes, limits))
  }

  function Broadcast(h: HubState, stateBytes: nat, limits: Limits): HubState {
    h.(conns := WriteAll(h.conns, State(h.log.last, None), stateBytes, limits))
  }

  predicate Admitted(h: HubState, tab: string, limits: Limits) {
    !h.shut && (tab in h.conns.at || |h.conns.order| < limits.maxStreams)
  }

  /** A new stream for `tab`; it replaces the tab's former one, of which the map keeps nothing. */
  function Attach(h: HubState, c: Controller, tab: string, header: Header, stateBytes: nat, limits: Limits)
    : (HubState, Controller)
  {
    if !Admitted(h, tab, limits) then (h, c)
    else (h.(conns := h.conns.Put(tab, Open(h.log, header, h.nextCid, stateBytes, limits)), nextCid := h.nextCid + 1),
          if tab in h.conns.at then c else Connected(c, tab))
  }

  /** The close event of stream `cid` of `tab`, possibly long after the stream was replaced. */
  function StreamClosed(h: HubState, c: Controller, tab: string, cid: nat): (HubState, Controller) {
    if tab in h.conns.at && h.conns.at[tab].cid == cid then (h.(conns := h.conns.Remove(tab)), Disconnected(c, tab))
    else (h, c)
  }

  function Drained(h: HubState, tab: string): HubState {
    if tab !in h.conns.at then h
    else h.(conns := h.conns.Put(tab, h.conns.at[tab].(buffered := 0, allowance := 0)))
  }

  function Shutdown(h: HubState): HubState {
    h.(conns := Empty(), shut := true)
  }

  /** The controller holds a registered stream, an orphaned one has none, and before the first
      stream there is no controller. */
  ghost predicate Agree(c: Controller, tabs: set<string>) {
    match c
    case Init => tabs == {}
    case Nobody => true
    case Held(tab) => tab in tabs
    case Orphaned(tab) => tab !in tabs
  }

  ghost predicate HubInv(h: HubState, limits: Limits) {
    LogInv(h.log, limits) && ConnsInv(h.conns, h.nextCid, h.log.last)
  }

  ghost predicate ConnsInv(conns: Conns, nextCid: nat, last: nat) {
    && conns.Valid()
    && (forall tab :: tab in conns.at ==> conns.at[tab].cid < nextCid && HoleFree(conns.at[tab], last))
  }

  // ---- Every step of the hub and its controller ----------------------------------------------------------

  datatype HubEvent =
    | Publishes(body: Body, bytes: nat)
    | Broadcasts(stateBytes: nat)
    | Attaches(tab: string, header: Header, stateBytes: nat)
    | Closes(tab: string, cid: nat)
    | Drains(tab: string)
    | Claims(tab: string, force: bool)
    | GraceEnds(tab: string)
    | ShutsDown

  function HubStep(h: HubState, c: Controller, e: HubEvent, limits: Limits): (HubState, Controller) {
    match e
    case Publishes(body, bytes) => (Publish(h, body, bytes, limits), c)
    case Broadcasts(stateBytes) => (Broadcast(h, stateBytes, limits), c)
    case Attaches(tab, header, stateBytes) => Attach(h, c, tab, header, stateBytes, limits)
    case Closes(tab, cid) => StreamClosed(h, c, tab, cid)
    case Drains(tab) => (Drained(h, tab), c)
    case Claims(tab, force) => (h, Claimed(c, tab, tab in h.conns.at, force).0)
    case GraceEnds(tab) => (h, GraceOver(c, tab))
    case ShutsDown => (Shutdown(h), c)
  }

  function HubRun(h: HubState, c: Controller, es: seq<HubEvent>, limits: Limits): (HubState, Controller)
    decreases |es|
  {
    if es == [] then (h, c)
    else
      var (h', c') := HubStep(h, c, es[0], limits);
      HubRun(h', c', es[1..], limits)
  }

  lemma PublishConns(conns: Conns, conns': Conns, nextCid: nat, last: nat, body: Body, bytes: nat, limits: Limits)
    requires ConnsInv(conns, nextCid, last)
    requires conns' == WriteAll(conns, Published(Frame(last + 1, body, bytes)), bytes, limits)
    ensures ConnsInv(conns', nextCid, last + 1)
  {
    forall tab | tab in conns'.at ensures HoleFree(conns'.at[tab], last + 1) && conns'.at[tab].cid < nextCid {
      WriteKeepsHoleFree(conns.at[tab], conns'.at[tab], Frame(last + 1, body, bytes), last, limits);
    }
  }

  lemma PublishKeeps(h: HubState, h': HubState, body: Body, bytes: nat, limits: Limits)
    requires HubInv(h, limits) && h' == Publish(h, body, bytes, limits)
    ensures HubInv(h', limits)
  {
    AppendInv(h.log, body, bytes, limits);
    PublishConns(h.conns, h'.conns, h.nextCid, h.log.last, body, bytes, limits);
    Assembled(h', limits);
  }

  lemma Assembled(h: HubState, limits: Limits)
    requires LogInv(h.log, limits) && ConnsInv(h.conns, h.nextCid, h.log.last)
    ensures HubInv(h, limits)
  {}

  lemma BroadcastKeeps(h: HubState, stateBytes: nat, limits: Limits)
    requires HubInv(h, limits)
    ensures HubInv(Broadcast(h, stateBytes, limits), limits)
  {
    forall tab | tab in h.conns.at
      ensures var c := Write(h.conns.at[tab], State(h.log.last, None), stateBytes, limits);
              HoleFree(c, h.log.last) && c.cid < h.nextCid
    {
      StateKeepsHoleFree(h.conns.at[tab], State(h.log.last, None), stateBytes, h.log.last, limits);
    }
  }

  lemma AttachKeeps(h: HubState, c: Controller, tab: string, header: Header, stateBytes: nat, limits: Limits)
    requires HubInv(h, limits) && limits.retryBytes <= limits.writable
    ensures HubInv(Attach(h, c, tab, header, stateBytes, limits).0, limits)
  {
    var conn := Open(h.log, header, h.nextCid, stateBytes, limits);
    OpenHoleFree(h.log, header, h.nextCid, stateBytes, limits);
    OpenCid(h.log, header, h.nextCid, stateBytes, limits);
    h.conns.PutValid(tab, conn);
  }

  lemma DrainKeeps(h: HubState, tab: string, limits: Limits)
    requires HubInv(h, limits)
    ensures HubInv(Drained(h, tab), limits)
  {
    if tab in h.conns.at { h.conns.PutValid(tab, h.conns.at[tab].(buffered := 0, allowance := 0)); }
  }

  lemma HubStepKeeps(h: HubState, c: Controller, e: HubEvent, limits: Limits)
    requires HubInv(h, limits) && limits.retryBytes <= limits.writable
    ensures HubInv(HubStep(h, c, e, limits).0, limits)
  {
    match e
    case Publishes(body, bytes) => PublishKeeps(h, Publish(h, body, bytes, limits), body, bytes, limits);
    case Broadcasts(stateBytes) => BroadcastKeeps(h, stateBytes, limits);
    case Attaches(tab, header, stateBytes) => AttachKeeps(h, c, tab, header, stateBytes, limits);
    case Closes(tab, cid) => h.conns.RemoveValid(tab);
    case Drains(tab) => DrainKeeps(h, tab, limits);
    case _ =>
  }

  lemma OpenCid(log: Log, h: Header, cid: nat, stateBytes: nat, limits: Limits)
    requires limits.retryBytes <= limits.writable
    ensures Open(log, h, cid, stateBytes, limits).cid == cid
  {
    var blank := Conn(cid, false, [], limits.retryBytes, stateBytes + SumBytes(Replay(log, h)));
    WriteFramesFits(Write(blank, State(log.last, GapOf(log, h)), stateBytes, limits), Replay(log, h), limits);
  }

  lemma AgreeStep(h: HubState, c: Controller, e: HubEvent, limits: Limits)
    requires !h.shut && !e.ShutsDown? && Agree(c, h.conns.at.Keys)
    ensures var (h', c') := HubStep(h, c, e, limits); !h'.shut && Agree(c', h'.conns.at.Keys)
  {
    match e
    case Publishes(body, bytes) =>
      assert Publish(h, body, bytes, limits).conns.at.Keys == h.conns.at.Keys;
    case Broadcasts(stateBytes) =>
      assert Broadcast(h, stateBytes, limits).conns.at.Keys == h.conns.at.Keys;
    case Drains(tab) =>
      assert Drained(h, tab).conns.at.Keys == h.conns.at.Keys;
    case _ =>
  }

  /** Over every interleaving of attaches, replacements, late close events, claims and grace
      timers the hub keeps its log a suffix and every stream hole-free, and until the hub shuts
      down the controller agrees with it about who has a stream. */
  lemma {:induction false} HubRunKeeps(h: HubState, c: Controller, es: seq<HubEvent>, limits: Limits)
    requires HubInv(h, limits) && limits.retryBytes <= limits.writable
    requires !h.shut && Agree(c, h.conns.at.Keys)
    ensures var (h', c') := HubRun(h, c, es, limits);
            HubInv(h', limits) && (ShutsDown !in es ==> !h'.shut && Agree(c', h'.conns.at.Keys))
    decreases |es|
  {
    if es != [] {
      HubStepKeeps(h, c, es[0], limits);
      if ShutsDown !in es {
        AgreeStep(h, c, es[0], limits);
        var (h', c') := HubStep(h, c, es[0], limits);
        HubRunKeeps(h', c', es[1..], limits);
      } else {
        HubInvRun(h, c, es, limits);
      }
    }
  }

  lemma {:induction false} HubInvRun(h: HubState, c: Controller, es: seq<HubEvent>, limits: Limits)
    requires HubInv(h, limits) && limits.retryBytes <= limits.writable
    ensures HubInv(HubRun(h, c, es, limits).0, limits)
    decreases |es|
  {
    if es != [] {
      HubStepKeeps(h, c, es[0], limits);
      var (h', c') := HubStep(h, c, es[0], limits);
      HubInvRun(h', c', es[1..], limits);
    }
  }

  /** Shutting down drops the streams without telling the controller: they then agree exactly
      when no tab held control. */
  lemma ShutdownAgreesIff(h: HubState, c: Controller, limits: Limits)
    requires Agree(c, h.conns.at.Keys)
    ensures var (h', c') := HubStep(h, c, ShutsDown, limits); Agree(c', h'.conns.at.Keys) <==> !c.Held?
  {}

  // ---- The hub in place ---------------------------------------------------------------------------------------

  class EventHub {
    const control: TabControl
    const limits: Limits
    var frames: seq<Frame>
    var bytes: nat
    var last: nat
    var conns: Conns
    var nextCid: nat
    var shut: bool

    function View(): HubState
      reads this
    {
      HubState(Log(frames, bytes, last), conns, nextCid, shut)
    }

    ghost predicate Valid()
      reads this, control
    {
      && HubInv(View(), limits) && limits.retryBytes <= limits.writable
      && (!shut ==> Agree(control.controller, conns.at.Keys))
    }

    constructor (control: TabControl, limits: Limits)
      requires control.controller == Init && limits.retryBytes <= limits.writable
      ensures Valid() && View() == FRESH_HUB
      ensures this.control == control && this.limits == limits
    {
      this.control, this.limits := control, limits;
      frames, bytes, last := [], 0, 0;
      conns, nextCid, shut := Empty(), 0, false;
    }

    method SendToAll(item: Item, size: nat)
      modifies this`conns
      requires conns.Valid()
      ensures conns == WriteAll(old(conns), item, size, limits)
    {
      ghost var was := conns;
      var i := 0;
      while i < |conns.order|
        invariant 0 <= i <= |was.order| && conns.order == was.order && conns.at.Keys == was.at.Keys
        invariant forall j :: 0 <= j < i ==>
                    was.order[j] in was.at && conns.at[was.order[j]] == Write(was.at[was.order[j]], item, size, limits)
        invariant forall j :: i <= j < |was.order| ==>
                    was.order[j] in was.at && conns.at[was.order[j]] == was.at[was.order[j]]
      {
        var tab := conns.order[i];
        conns := Table(conns.order, conns.at[tab := Write(conns.at[tab], item, size, limits)]);
        i := i + 1;
      }
      forall tab | tab in was.at ensures conns.at[tab] == Write(was.at[tab], item, size, limits) {
        assert tab in was.order;
      }
      assert conns.at == WriteAll(was, item, size, limits).at;
    }

    method TrimFront()
      requires bytes == SumBytes(frames)
      modifies this`frames, this`bytes
      ensures frames == Trim(old(frames), limits) && bytes == SumBytes(frames)
    {
      while |frames| > limits.maxFrames || (bytes > limits.maxBytes && |frames| > 1)
        invariant bytes == SumBytes(frames)
        invariant Trim(frames, limits) == Trim(old(frames), limits)
        decreases |frames|
      {
        bytes := bytes - frames[0].bytes;
        frames := frames[1..];
      }
    }

    method PublishFrame(body: Body, size: nat)
      requires Valid()
      modifies this
      ensures Valid()
      ensures View() == Publish(old(View()), body, size, limits)
    {
      ghost var was := View();
      Push(body, size);
      PublishKeeps(was, View(), body, size, limits);
      assert conns.at.Keys == was.conns.at.Keys;
    }

    method Push(body: Body, size: nat)
      requires bytes == SumBytes(frames) && conns.Valid()
      modifies this
      ensures View() == Publish(old(View()), body, size, limits)
    {
      ghost var was := View();
      last := last + 1;
      var f := Frame(last, body, size);
      SumPush(frames, f);
      frames := frames + [f];
      bytes := bytes + size;
      ghost var pushed := frames;
      assert pushed == was.log.frames + [Frame(was.log.last + 1, body, size)];
      TrimFront();
      ghost var kept := Trim(pushed, limits);
      assert frames == kept && bytes == SumBytes(kept) && last == was.log.last + 1;
      SendToAll(Published(f), size);
      assert View().log == Log(kept, SumBytes(kept), was.log.last + 1);
    }

    method BroadcastState(stateBytes: nat)
      requires Valid()
      modifies this`conns
      ensures Valid()
      ensures View() == Broadcast(old(View()), stateBytes, limits)
    {
      ghost var was := View();
      SendToAll(State(last, None), stateBytes);
      BroadcastKeeps(was, stateBytes, limits);
      assert conns.at.Keys == was.conns.at.Keys;
    }

    method Missed(header: Header) returns (gap: Option<Gap>, replay: seq<Frame>)
      ensures gap == GapOf(View().log, header) && replay == Replay(View().log, header)
    {
      var n := if header.Id? && header.n <= last then header.n else 0;
      var min := if |frames| > 0 then frames[0].n else last + 1;
      gap := if !header.Absent? && n + 1 < min then Some(Gap(n + 1, min - 1)) else None;
      replay := frames;
      if gap.None? { replay := NewerThan(n); }
    }

    method OpenStream(tab: string, header: Header, stateBytes: nat) returns (ok: bool)
      requires Valid()
      modifies this, control
      ensures Valid()
      ensures ok == Admitted(old(View()), tab, limits)
      ensures (View(), control.controller)
              == Attach(old(View()), old(control.controller), tab, header, stateBytes, limits)
    {
      hide HubInv, Open, GapOf, Replay, Agree;
      if shut || (tab !in conns.at && |conns.order| >= limits.maxStreams) { return false; }
      AttachKeeps(View(), control.controller, tab, header, stateBytes, limits);
      AgreeStep(View(), control.controller, Attaches(tab, header, stateBytes), limits);
      if tab !in conns.at { control.TabConnected(tab); }
      Register(tab, header, stateBytes);
      return true;
    }

    method Register(tab: string, header: Header, stateBytes: nat)
      modifies this`conns, this`nextCid
      ensures conns == old(conns).Put(tab, Open(View().log, header, old(nextCid), stateBytes, limits))
      ensures nextCid == old(nextCid) + 1
    {
      var gap, replay := Missed(header);
      var conn := Conn(nextCid, false, [], limits.retryBytes, stateBytes + SumBytes(replay));
      conn := Write(conn, State(last, gap), stateBytes, limits);
      conn := WriteReplay(conn, replay);
      conns := conns.Put(tab, conn);
      nextCid := nextCid + 1;
    }

    /** `frames.filter((f) => f.seq > n)`. */
    method NewerThan(n: nat) returns (r: seq<Frame>)
      ensures r == Newer(frames, n)
    {
      r := [];
      var i := 0;
      while i < |frames|
        invariant 0 <= i <= |frames|
        invariant Newer(frames, n) == r + Newer(frames[i..], n)
      {
        assert frames[i..][1..] == frames[i + 1..];
        if frames[i].n > n { r := r + [frames[i]]; }
        i := i + 1;
      }
    }

    method WriteReplay(conn: Conn, replay: seq<Frame>) returns (r: Conn)
      ensures r == WriteFrames(conn, replay, limits)
    {
      r := conn;
      var i := 0;
      while i < |replay|
        invariant 0 <= i <= |replay|
        invariant WriteFrames(conn, replay, limits) == WriteFrames(r, replay[i..], limits)
      {
        assert replay[i..][1..] == replay[i + 1..];
        r := Write(r, Published(replay[i]), replay[i].bytes, limits);
        i := i + 1;
      }
    }

    method OnClose(tab: string, cid: nat)
      requires Valid()
      modifies this, control
      ensures Valid()
      ensures (View(), control.controller) == StreamClosed(old(View()), old(control.controller), tab, cid)
    {
      if tab in conns.at && conns.at[tab].cid == cid {
        conns.RemoveValid(tab);
        conns := conns.Remove(tab);
        control.TabDisconnected(tab);
      }
    }

    method OnGraceTimer(tab: string)
      requires Valid()
      modifies control
      ensures Valid()
      ensures tab in conns.at ==> control.controller == old(control.controller) || shut
      ensures control.controller == GraceOver(old(control.controller), tab)
    {
      control.GraceTimer(tab);
    }

    method ClaimControl(tab: string, force: bool) returns (answer: Option<bool>)
      requires Valid()
      modifies control
      ensures Valid()
      ensures (control.controller, answer) == Claimed(old(control.controller), tab, tab in conns.at, force)
      ensures answer == None <==> tab !in conns.at
      ensures answer == Some(true) <==> control.controller == Held(tab) && tab in conns.at
      ensures answer == Some(false) ==> control.controller == old(control.controller) && !force
    {
      answer := control.Claim(tab, tab in conns.at, force);
    }

    method Close()
      requires Valid()
      modifies this
      ensures Valid()
      ensures View() == Shutdown(old(View()))
    {
      shut := true;
      conns := Empty();
    }
  }

  lemma {:induction false} SumPush(frames: seq<Frame>, f: Frame)
    ensures SumBytes(frames + [f]) == SumBytes(frames) + f.bytes
  {
    if frames == [] {
      assert [] + [f] == [f];
    } else {
      assert (frames + [f])[1..] == frames[1..] + [f];
      SumPush(frames[1..], f);
    }
  }
}
