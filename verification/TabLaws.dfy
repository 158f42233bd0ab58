/** Who holds control, who gets a stream and who is cut, told by the fields alone
    (fronts/web/src/bff/state.ts:334-382, fronts/web/src/bff/sse.ts:109-272). */
module TabLaws {
  import opened Tables
  import opened Hub

  // ---- Control ----------------------------------------------------------------------------------------

  /** The step gives tab its first stream. */
  ghost predicate Arrives(h: HubState, e: HubEvent, tab: string, limits: Limits) {
    && e.Attaches? && e.tab == tab && !h.shut && tab !in h.conns.at && |h.conns.order| < limits.maxStreams
  }

  /** The step ends tab's stream for good: it is the one registered. */
  ghost predicate Leaves(h: HubState, e: HubEvent, tab: string) {
    e.Closes? && e.tab == tab && tab in h.conns.at && h.conns.at[tab].cid == e.cid
  }

  /** The step is a claim that tab may make: it has a stream, and takes control from nobody or by force. */
  ghost predicate Takes(h: HubState, c: Controller, e: HubEvent, tab: string) {
    e.Claims? && e.tab == tab && tab in h.conns.at && (e.force || !(exists other :: c == Held(other)))
  }

  /** Control changes hands in these ways and no other: to the first tab ever, or back to a tab that
      returns in time, when it arrives; or to a tab that may claim it. The holder becomes an orphan
      exactly when its stream ends, and nobody holds control exactly when an orphan's grace ends. */
  lemma ControlLaw(h: HubState, c: Controller, e: HubEvent, limits: Limits, tab: string)
    ensures var c' := HubStep(h, c, e, limits).1;
            && (c != Held(tab) ==>
                  (c' == Held(tab) <==>
                     (Arrives(h, e, tab, limits) && (c == Init || c == Orphaned(tab))) || Takes(h, c, e, tab)))
            && (c != Orphaned(tab) ==> (c' == Orphaned(tab) <==> c == Held(tab) && Leaves(h, e, tab)))
            && (c != Nobody ==> (c' == Nobody <==> e.GraceEnds? && c == Orphaned(e.tab)))
            && (c != Init ==> c' != Init)
  {
    hide Open, Publish, Broadcast, Drained, Shutdown;
  }

  /** What a claim is answered: nothing without a stream, yes to the holder and to a claim that takes
      control, no otherwise. */
  lemma ClaimLaw(c: Controller, tab: string, connected: bool, force: bool)
    ensures var answer := Claimed(c, tab, connected, force).1;
            && (answer == None <==> !connected)
            && (answer == Some(false) <==> connected && !force && exists other :: c == Held(other) && other != tab)
  {}

  // ---- Streams ----------------------------------------------------------------------------------------

  /** A tab gets a stream exactly when the hub is up and the tab has one or there is room; the stream is
      new, open and replaces the tab's former one, and no other changes. */
  lemma AttachLaw(h: HubState, c: Controller, tab: string, header: Header, stateBytes: nat, limits: Limits)
    requires limits.retryBytes <= limits.writable
    ensures var h' := Attach(h, c, tab, header, stateBytes, limits).0;
            if h.shut || (tab !in h.conns.at && |h.conns.order| >= limits.maxStreams) then h' == h
            else
              && h'.conns.at.Keys == h.conns.at.Keys + {tab} && h'.nextCid == h.nextCid + 1
              && h'.log == h.log && !h'.shut
              && h'.conns.at[tab].cid == h.nextCid && !h'.conns.at[tab].closed
              && (forall t :: t in h.conns.at && t != tab ==> h'.conns.at[t] == h.conns.at[t])
  {
    OpenCid(h.log, header, h.nextCid, stateBytes, limits);
    OpenNeverCutsTheReplay(h.log, header, h.nextCid, stateBytes, limits);
    hide Open;
  }

  /** A close event takes away the tab's stream exactly when it is that stream's own. */
  lemma CloseLaw(h: HubState, c: Controller, tab: string, cid: nat)
    ensures var h' := StreamClosed(h, c, tab, cid).0;
            if tab in h.conns.at && h.conns.at[tab].cid == cid
            then h'.conns.at == h.conns.at - {tab} && h' == h.(conns := h'.conns) else h' == h
  {}

  /** An open stream takes one more item, and is cut exactly when it then holds more than the socket
      takes and its opening allowed; a cut one takes nothing. */
  ghost predicate Takes1(conn: Conn, conn': Conn, item: Item, bytes: nat, limits: Limits) {
    && conn'.cid == conn.cid && conn'.allowance == conn.allowance
    && (conn.closed ==> conn' == conn)
    && (!conn.closed ==>
          && conn'.out == conn.out + [item] && conn'.buffered == conn.buffered + bytes
          && (conn'.closed <==> conn.buffered + bytes > limits.writable + conn.allowance))
  }

  /** Publishing reaches every stream, and nothing else of the hub changes but the log. */
  lemma PublishLaw(h: HubState, body: Body, bytes: nat, limits: Limits)
    ensures var h' := Publish(h, body, bytes, limits);
            && h' == h.(log := h'.log, conns := h'.conns) && h'.log.last == h.log.last + 1
            && h'.conns.order == h.conns.order && h'.conns.at.Keys == h.conns.at.Keys
            && forall tab :: tab in h.conns.at ==>
                 Takes1(h.conns.at[tab], h'.conns.at[tab], Published(Frame(h.log.last + 1, body, bytes)), bytes, limits)
  {}

  lemma BroadcastLaw(h: HubState, stateBytes: nat, limits: Limits)
    ensures var h' := Broadcast(h, stateBytes, limits);
            && h' == h.(conns := h'.conns)
            && h'.conns.order == h.conns.order && h'.conns.at.Keys == h.conns.at.Keys
            && forall tab :: tab in h.conns.at ==>
                 Takes1(h.conns.at[tab], h'.conns.at[tab], State(h.log.last, None), stateBytes, limits)
  {}

  /** A drained socket holds nothing, and its opening's allowance is over. */
  lemma DrainLaw(h: HubState, tab: string)
    ensures var h' := Drained(h, tab);
            && h' == h.(conns := h'.conns) && h'.conns.at.Keys == h.conns.at.Keys
            && forall t :: t in h.conns.at ==>
                 && h'.conns.at[t].out == h.conns.at[t].out && h'.conns.at[t].closed == h.conns.at[t].closed
                 && h'.conns.at[t].cid == h.conns.at[t].cid
                 && h'.conns.at[t].buffered == (if t == tab then 0 else h.conns.at[t].buffered)
                 && h'.conns.at[t].allowance == (if t == tab then 0 else h.conns.at[t].allowance)
  {}

  /** A new stream may hold its state frame and its replay on top of what the socket takes. */
  lemma OpenLaw(log: Log, h: Header, cid: nat, stateBytes: nat, limits: Limits)
    requires limits.retryBytes <= limits.writable
    ensures var c := Open(log, h, cid, stateBytes, limits);
            && c.allowance == stateBytes + SumBytes(Replay(log, h))
            && c.buffered == limits.retryBytes + c.allowance
  {
    var blank := Conn(cid, false, [], limits.retryBytes, stateBytes + SumBytes(Replay(log, h)));
    WriteFramesFits(Write(blank, State(log.last, GapOf(log, h)), stateBytes, limits), Replay(log, h), limits);
  }

  lemma ShutdownLaw(h: HubState)
    ensures var h' := Shutdown(h); h'.shut && h'.conns.at == map[] && h'.conns.order == [] && h'.log == h.log
  {}

  /** What the hub makes of a Last-Event-ID: a seq of its own is where the stream goes on, anything else
      is the start; a gap is reported to a tab that has come back exactly when frames in between are gone. */
  lemma PointLaw(log: Log, h: Header, limits: Limits)
    requires LogInv(log, limits)
    ensures Point(log, h) == (if h.Id? && h.n <= log.last then h.n else 0)
    ensures GapOf(log, h) != None <==> h != Absent && Point(log, h) + |log.frames| < log.last
    ensures GapOf(log, h) != None ==> GapOf(log, h) == Some(Gap(Point(log, h) + 1, log.last - |log.frames|))
  {}

  // ---- The buffer ---------------------------------------------------------------------------------------

  /** Too many frames, or too many bytes in more than one. */
  ghost predicate TooMuch(frames: seq<Frame>, limits: Limits) {
    |frames| > limits.maxFrames || (SumBytes(frames) > limits.maxBytes && |frames| > 1)
  }

  /** Trimming takes frames off the front, as many as it must and no more. */
  lemma TrimLaw(frames: seq<Frame>, limits: Limits)
    ensures var kept := Trim(frames, limits);
            && |kept| <= |frames| && kept == frames[|frames| - |kept|..] && !TooMuch(kept, limits)
            && forall k :: 0 <= k < |frames| - |kept| ==> TooMuch(frames[k..], limits)
  {
    TrimIsGreedy(frames, limits);
    TrimFits(frames, limits);
  }

  lemma {:induction false} TrimFits(frames: seq<Frame>, limits: Limits)
    ensures !TooMuch(Trim(frames, limits), limits)
    decreases |frames|
  {
    if OverLimit(frames, SumBytes(frames), limits) { TrimFits(frames[1..], limits); }
  }

  /** A size is the sum of the frames' own. */
  lemma SizeLaw(frames: seq<Frame>, f: Frame)
    ensures SumBytes([]) == 0 && SumBytes(frames + [f]) == SumBytes(frames) + f.bytes
  {
    SumPush(frames, f);
  }
}
