/** A conversation compacted (src/agent_augury/core/compact.py) and put into the Messages API's
    shape (src/agent_augury/backend/anthropic.py). */
module History {
  import opened Tables
  import opened PyText

  /** A tool call an assistant turn makes. `input` is its arguments, parsed. */
  datatype Call = Call(id: string, name: string, input: string)

  /** A message of the OpenAI-shaped history. A missing content is "". */
  datatype Msg =
    | System(text: string)
    | User(text: string)
    | Assistant(text: string, calls: seq<Call>)
    | Tool(callId: string, name: string, text: string)

  function Ids(calls: seq<Call>): seq<string> {
    seq(|calls|, i requires 0 <= i < |calls| => calls[i].id)
  }

  function Answered(results: seq<Msg>): seq<string>
    requires forall m :: m in results ==> m.Tool?
  {
    seq(|results|, i requires 0 <= i < |results| => results[i].callId)
  }

  /** The results are exactly those of the calls, in any order. */
  ghost predicate Answers(calls: seq<Call>, results: seq<Msg>) {
    && (forall m :: m in results ==> m.Tool?)
    && multiset(Answered(results)) == multiset(Ids(calls))
  }

  /** Each assistant turn is followed at once by the results of its calls, and there are no others. */
  ghost predicate Paired(h: seq<Msg>)
    decreases |h|
  {
    if h == [] then true
    else match h[0]
      case Tool(_, _, _) => false
      case Assistant(_, calls) => |calls| < |h| && Answers(calls, h[1..|calls| + 1]) && Paired(h[|calls| + 1..])
      case _ => Paired(h[1..])
  }

  // ---- Cutting a history -----------------------------------------------------------------------------

  /** Where the first segment of a history ends. */
  function Segment(h: seq<Msg>): nat
    requires h != []
  {
    if h[0].Assistant? then |h[0].calls| + 1 else 1
  }

  /** A paired history starts with a segment whose other messages are results, and goes on paired. */
  lemma SegmentOf(h: seq<Msg>)
    requires Paired(h) && h != []
    ensures Segment(h) <= |h| && Paired(h[Segment(h)..])
    ensures forall i :: 0 < i < Segment(h) ==> h[i].Tool?
    ensures !h[0].Tool?
  {
    var n := Segment(h);
    forall i | 0 < i < n ensures h[i].Tool? {
      assert h[1..n][i - 1] == h[i] && h[i] in h[1..n];
    }
  }

  lemma PairedStart(h: seq<Msg>)
    ensures Paired([])
    ensures h != [] && h[0].Tool? ==> !Paired(h)
  {}

  /** The results of a first segment. */
  lemma SegmentAnswers(h: seq<Msg>)
    requires Paired(h) && h != [] && h[0].Assistant?
    ensures Segment(h) <= |h| && Answers(h[0].calls, h[1..Segment(h)])
  {}

  lemma SegmentPairs(h: seq<Msg>, n: nat)
    requires h != [] && n == Segment(h) <= |h| && !h[0].Tool? && Paired(h[n..])
    requires h[0].Assistant? ==> Answers(h[0].calls, h[1..n])
    ensures Paired(h)
  {}

  lemma SegmentIsPaired(h: seq<Msg>, rest: seq<Msg>)
    requires Paired(h) && h != [] && Paired(rest)
    ensures Segment(h) <= |h| && Paired(h[..Segment(h)] + rest)
  {
    hide Paired, Answers;
    SegmentOf(h);
    var n := Segment(h);
    var g := h[..n] + rest;
    assert g[0] == h[0] && g[n..] == rest;
    if h[0].Assistant? {
      SegmentAnswers(h);
      assert g[1..n] == h[1..n];
    }
    SegmentPairs(g, n);
  }

  /** Cutting a paired history leaves two paired halves exactly where no result is cut off from
      its call. */
  lemma {:induction false} CutIsSafeIff(h: seq<Msg>, cut: nat)
    requires Paired(h) && cut <= |h|
    ensures Paired(h[..cut]) && Paired(h[cut..]) <==> cut == |h| || !h[cut].Tool?
    decreases |h|, 1
  {
    hide Paired, Answers;
    PairedStart(h[cut..]);
    if cut == |h| {
      assert h[..cut] == h && h[cut..] == [];
    } else if cut == 0 {
      assert h[cut..] == h && h[..cut] == [];
      PairedStart(h);
    } else if h[cut].Tool? {
      assert h[cut..][0] == h[cut];
    } else {
      SegmentOf(h);
      CutAfterSegment(h, cut, Segment(h), h[Segment(h)..]);
    }
  }

  lemma CutAfterSegment(h: seq<Msg>, cut: nat, n: nat, rest: seq<Msg>)
    requires Paired(h) && h != [] && n == Segment(h) <= cut < |h| && rest == h[n..]
    requires Paired(rest) && !h[cut].Tool?
    ensures Paired(h[..cut]) && Paired(h[cut..])
    decreases |rest| + 1, 0
  {
    hide Paired, Answers;
    assert rest[cut - n] == h[cut];
    CutIsSafeIff(rest, cut - n);
    assert h[cut..] == rest[cut - n..];
    assert h[..cut] == h[..n] + rest[..cut - n];
    SegmentIsPaired(h, rest[..cut - n]);
  }

  // ---- Head and tail ------------------------------------------------------------------------------------

  function Max(a: int, b: int): int {
    if a < b then b else a
  }

  /** What is not a system message. */
  function Rest(h: seq<Msg>): seq<Msg>
    decreases |h|
  {
    if h == [] then [] else Rest(h[..|h| - 1]) + if h[|h| - 1].System? then [] else [h[|h| - 1]]
  }

  /** The latest system message. */
  function Systems(h: seq<Msg>): seq<Msg>
    decreases |h|
  {
    if h == [] then [] else if h[|h| - 1].System? then [h[|h| - 1]] else Systems(h[..|h| - 1])
  }

  /** A size of message lists, such as the length of their JSON text. */
  type Size = seq<Msg> -> nat

  /** The first cut from `at` on that leaves a short enough tail, or a tail of one. */
  function Shrunk(rest: seq<Msg>, at: nat, keepChars: int, size: Size): (r: nat)
    requires at <= |rest|
    ensures at <= r <= |rest|
    decreases |rest| - at
  {
    if size(rest[at..]) > keepChars && |rest| - at > 1 then Shrunk(rest, at + 1, keepChars, size) else at
  }

  /** The first cut from `at` on that does not open the tail with a result. */
  function PastResults(rest: seq<Msg>, at: nat): (r: nat)
    requires at <= |rest|
    ensures at <= r <= |rest|
    ensures r == |rest| || !rest[r].Tool?
    ensures forall i :: at <= i < r ==> rest[i].Tool?
    decreases |rest| - at
  {
    if at < |rest| && rest[at].Tool? then PastResults(rest, at + 1) else at
  }

  function Cut(rest: seq<Msg>, keepChars: int, keepMessages: int, size: Size): (r: nat)
    ensures r <= |rest|
  {
    var n := Max(1, keepMessages);
    PastResults(rest, Shrunk(rest, if |rest| <= n then 0 else |rest| - n, keepChars, size))
  }

  /** A tail that both limits allow; one message always is. */
  ghost predicate Allowed(rest: seq<Msg>, at: nat, keepChars: int, keepMessages: int, size: Size)
    requires at <= |rest|
  {
    (|rest| - at <= keepMessages && size(rest[at..]) <= keepChars) || |rest| - at <= 1
  }

  lemma {:induction false} ShrunkIsFirst(rest: seq<Msg>, at: nat, keepChars: int, size: Size, i: nat)
    requires at <= |rest|
    ensures var r := Shrunk(rest, at, keepChars, size);
            && (size(rest[r..]) <= keepChars || |rest| - r <= 1)
            && (at <= i < r ==> size(rest[i..]) > keepChars && |rest| - i > 1)
    decreases |rest| - at
  {
    if size(rest[at..]) > keepChars && |rest| - at > 1 { ShrunkIsFirst(rest, at + 1, keepChars, size, i); }
  }

  /** Dropping messages from the front makes a tail no larger. */
  ghost predicate Shrinks(rest: seq<Msg>, size: Size) {
    forall i, j :: 0 <= i <= j <= |rest| ==> size(rest[j..]) <= size(rest[i..])
  }

  /** The tail starts behind the results at the first place `a` that the two limits allow, so that
      it does not open with a result; it is allowed itself wherever a shorter tail is no larger. */
  lemma CutIsFirst(rest: seq<Msg>, keepChars: int, keepMessages: int, size: Size) returns (a: nat)
    ensures a <= |rest| && Allowed(rest, a, keepChars, keepMessages, size)
    ensures forall j :: 0 <= j < a ==> !Allowed(rest, j, keepChars, keepMessages, size)
    ensures var cut := Cut(rest, keepChars, keepMessages, size);
            && a <= cut && (forall j :: a <= j < cut ==> rest[j].Tool?)
            && (cut == |rest| || !rest[cut].Tool?)
            && (Shrinks(rest, size) ==> Allowed(rest, cut, keepChars, keepMessages, size))
  {
    var n := Max(1, keepMessages);
    var start := if |rest| <= n then 0 else |rest| - n;
    a := Shrunk(rest, start, keepChars, size);
    ShrunkIsFirst(rest, start, keepChars, size, start);
    forall j | 0 <= j < a ensures !Allowed(rest, j, keepChars, keepMessages, size) {
      ShrunkIsFirst(rest, start, keepChars, size, j);
    }
  }

  // ---- Compacting -----------------------------------------------------------------------------------------

  const TOOL_LIMIT := 8000

  function Omitted(m: Msg): Msg
    requires m.Tool?
  {
    var name := if m.name != "" then m.name else "tool";
    var id := if m.callId != "" then m.callId else "?";
    m.(text := "[omitted tool result: " + name + "|" + id + ", " + Decimal(|m.text|)
               + " chars \U{2014} no longer in this conversation; re-run the call before relying on it]")
  }

  /** A tail message: a large result loses its content, and nothing else. */
  function Lightened(m: Msg, size: Size): Msg {
    if m.Tool? && size([m]) > TOOL_LIMIT then Omitted(m) else m
  }

  function Lighten(tail: seq<Msg>, size: Size): seq<Msg> {
    seq(|tail|, i requires 0 <= i < |tail| => Lightened(tail[i], size))
  }

  datatype Limits = Limits(soft: int, keepChars: int, keepMessages: int)

  /** The new conversation and, if it was compacted, the number of omitted messages. */
  function Compact(h: seq<Msg>, limits: Limits, size: Size, summary: seq<Msg> -> string): (seq<Msg>, Option<nat>) {
    if limits.soft <= 0 || size(h) <= limits.soft then (h, None)
    else
      var rest := Rest(h);
      var cut := Cut(rest, limits.keepChars, limits.keepMessages, size);
      if cut == 0 then (h, None)
      else (Systems(h) + [Notice(summary(rest[..cut]))] + Lighten(rest[cut..], size), Some(cut))
  }

  function Notice(body: string): Msg {
    User("[checkpoint compact] Earlier work summary: " + body)
  }

  lemma LightenSize(tail: seq<Msg>, size: Size)
    ensures |Lighten(tail, size)| == |tail|
  {}

  lemma LightenPart(tail: seq<Msg>, size: Size, n: nat)
    requires 1 <= n <= |tail| && !tail[0].Tool?
    ensures Lighten(tail, size)[n..] == Lighten(tail[n..], size)
    ensures Lighten(tail, size)[1..n] == Lighten(tail[1..n], size)
    ensures Lighten(tail, size)[0] == tail[0]
  {}

  lemma {:induction false} LightenKeepsPairs(tail: seq<Msg>, size: Size)
    requires Paired(tail)
    ensures Paired(Lighten(tail, size))
    decreases |tail|
  {
    hide Paired, Answers, Lighten;
    PairedStart([]);
    var light := Lighten(tail, size);
    LightenSize(tail, size);
    if tail != [] {
      PairedStart(tail);
      SegmentOf(tail);
      var n := Segment(tail);
      LightenKeepsPairs(tail[n..], size);
      LightenPart(tail, size, n);
      if tail[0].Assistant? {
        SegmentAnswers(tail);
        LightAnswers(tail[0].calls, tail[1..n], light[1..n], size);
      }
      SegmentPairs(light, n);
    }
  }

  lemma LightAnswers(calls: seq<Call>, was: seq<Msg>, now: seq<Msg>, size: Size)
    requires Answers(calls, was) && now == Lighten(was, size)
    ensures Answers(calls, now)
  {
    hide Lightened;
    forall i | 0 <= i < |now| ensures now[i].Tool? && now[i].callId == was[i].callId {
      assert was[i] in was;
      LightenedIs(was[i], size);
    }
    assert Answered(now) == Answered(was);
  }

  lemma {:induction false} RestAppend(a: seq<Msg>, b: seq<Msg>)
    ensures Rest(a + b) == Rest(a) + Rest(b)
    decreases |b|
  {
    if b == [] {
      assert a + b == a;
    } else {
      assert (a + b)[..|a + b| - 1] == a + b[..|b| - 1];
      RestAppend(a, b[..|b| - 1]);
    }
  }

  lemma {:induction false} RestOfSpoken(h: seq<Msg>)
    requires forall m :: m in h ==> !m.System?
    ensures Rest(h) == h
    decreases |h|
  {
    if h != [] {
      assert h[|h| - 1] in h;
      RestOfSpoken(h[..|h| - 1]);
      assert h == h[..|h| - 1] + [h[|h| - 1]];
    }
  }

  lemma {:induction false} RestHasNoSystem(h: seq<Msg>)
    ensures forall m :: m in Rest(h) ==> !m.System? && m in h
    decreases |h|
  {
    if h != [] { RestHasNoSystem(h[..|h| - 1]); }
  }

  /** System messages between segments do not matter to the pairing. */
  lemma {:induction false} RestIsPaired(h: seq<Msg>)
    requires Paired(h)
    ensures Paired(Rest(h))
    decreases |h|
  {
    hide Paired, Answers;
    if h != [] {
      SegmentOf(h);
      var n := Segment(h);
      RestIsPaired(h[n..]);
      assert h == h[..n] + h[n..];
      RestAppend(h[..n], h[n..]);
      if h[0].System? {
        assert h[..1] == [h[0]];
        RestOfSystem(h[0]);
        assert Rest(h) == Rest(h[n..]);
      } else {
        forall m | m in h[..n] ensures !m.System? {
          var i :| 0 <= i < n && h[i] == m;
        }
        RestOfSpoken(h[..n]);
        SegmentIsPaired(h, Rest(h[n..]));
      }
    }
  }

  lemma RestOfSystem(m: Msg)
    requires m.System?
    ensures Rest([m]) == []
  {
    assert [m][..0] == [];
  }

  lemma {:induction false} SystemsAreSystem(h: seq<Msg>)
    ensures |Systems(h)| <= 1 && forall m :: m in Systems(h) ==> m.System? && m in h
    decreases |h|
  {
    if h != [] { SystemsAreSystem(h[..|h| - 1]); }
  }

  lemma PairedAfter(first: Msg, h: seq<Msg>)
    requires first.System? || first.User?
    ensures Paired([first] + h) <==> Paired(h)
  {
    assert ([first] + h)[1..] == h;
  }

  /** Compacting keeps every call with its results. */
  lemma CompactKeepsPairs(h: seq<Msg>, limits: Limits, size: Size, summary: seq<Msg> -> string)
    requires Paired(h)
    ensures Paired(Compact(h, limits, size, summary).0)
  {
    hide Paired, Answers, Cut, Rest, Systems, Lighten;
    var (out, omitted) := Compact(h, limits, size, summary);
    if omitted.Some? {
      var rest, cut := Rest(h), omitted.value;
      RestIsPaired(h);
      CutIsSafeIff(rest, cut);
      CutOpens(rest, limits, size);
      LightenKeepsPairs(rest[cut..], size);
      LedByNotice(Systems(h), Notice(summary(rest[..cut])), Lighten(rest[cut..], size), h);
    }
  }

  lemma CutOpens(rest: seq<Msg>, limits: Limits, size: Size)
    ensures var cut := Cut(rest, limits.keepChars, limits.keepMessages, size); cut == |rest| || !rest[cut].Tool?
  {}

  lemma LedByNotice(systems: seq<Msg>, notice: Msg, tail: seq<Msg>, h: seq<Msg>)
    requires systems == Systems(h) && notice.User? && Paired(tail)
    ensures Paired(systems + [notice] + tail)
  {
    hide Paired;
    PairedAfter(notice, tail);
    SystemsAreSystem(h);
    if systems != [] {
      assert systems[0] in systems;
      PairedAfter(systems[0], [notice] + tail);
      assert systems + [notice] + tail == [systems[0]] + ([notice] + tail);
    } else {
      assert systems + [notice] + tail == [notice] + tail;
    }
  }

  /** What stands in place of a large result: its tool, its id and its length. */
  ghost predicate Tombstone(m: Msg, l: Msg)
    requires m.Tool?
  {
    && l.Tool? && l.callId == m.callId && l.name == m.name
    && l.text == "[omitted tool result: " + (if m.name == "" then "tool" else m.name) + "|"
                 + (if m.callId == "" then "?" else m.callId) + ", " + Decimal(|m.text|)
                 + " chars \U{2014} no longer in this conversation; re-run the call before relying on it]"
  }

  ghost predicate Announces(m: Msg, summary: string) {
    m == User("[checkpoint compact] Earlier work summary: " + summary)
  }

  lemma NoticeAnnounces(summary: string)
    ensures Announces(Notice(summary), summary)
  {}

  /** A message of the tail and what it becomes. */
  ghost predicate Kept(m: Msg, l: Msg, size: Size) {
    if m.Tool? && size([m]) > 8000 then Tombstone(m, l) else l == m
  }

  lemma LightenedIs(m: Msg, size: Size)
    ensures Kept(m, Lightened(m, size), size)
  {}

  /** ... and loses nothing but the head it summarizes: head and tail are the non-system messages,
      and a tail message keeps its role, its place and the id it answers. A result of more than
      8000 characters in the tail loses its text, and nothing else does. */
  lemma CompactKeepsTheTail(h: seq<Msg>, limits: Limits, size: Size, summary: seq<Msg> -> string, i: nat)
    requires Compact(h, limits, size, summary).1.Some?
    ensures var (out, omitted) := Compact(h, limits, size, summary);
            var rest, cut, lead := Rest(h), omitted.value, |Systems(h)| + 1;
            && 0 < cut <= |rest| && |out| == lead + |rest| - cut
            && out[..lead - 1] == Systems(h) && Announces(out[lead - 1], summary(rest[..cut]))
            && (i < |rest| - cut ==> Kept(rest[cut + i], out[lead + i], size))
  {
    hide Rest, Systems, Cut, Kept, Announces;
    CompactIs(h, limits, size, summary);
    var rest, cut := Rest(h), Compact(h, limits, size, summary).1.value;
    TailIs(Compact(h, limits, size, summary).0, Systems(h), summary(rest[..cut]), rest, cut, size, i);
  }

  lemma TailIs(out: seq<Msg>, systems: seq<Msg>, body: string, rest: seq<Msg>, cut: nat, size: Size, i: nat)
    requires cut <= |rest| && out == systems + [Notice(body)] + Lighten(rest[cut..], size)
    ensures var lead := |systems| + 1;
            && |out| == lead + |rest| - cut && out[..lead - 1] == systems && Announces(out[lead - 1], body)
            && (i < |rest| - cut ==> Kept(rest[cut + i], out[lead + i], size))
  {
    hide Kept, Notice, Announces;
    NoticeAnnounces(body);
    TailAt(out, systems, Notice(body), rest, cut, size, i);
    if i < |rest| - cut { LightenedIs(rest[cut + i], size); }
  }

  /** A conversation is compacted exactly when there is a limit, it is over the limit, and something
      comes before the tail; otherwise it stays as it is. */
  lemma CompactsIff(h: seq<Msg>, limits: Limits, size: Size, summary: seq<Msg> -> string)
    ensures var (out, omitted) := Compact(h, limits, size, summary);
            && (omitted != None <==> 0 < limits.soft < size(h)
                                     && Cut(Rest(h), limits.keepChars, limits.keepMessages, size) != 0)
            && (omitted == None ==> out == h)
            && (omitted != None ==> omitted == Some(Cut(Rest(h), limits.keepChars, limits.keepMessages, size)))
  {}

  /** What is not a system message stays, each as often as it was said, and in order. */
  lemma {:induction false} RestIs(h: seq<Msg>, m: Msg, k: nat)
    ensures multiset(Rest(h))[m] == if m.System? then 0 else multiset(h)[m]
    ensures k <= |h| ==> Rest(h[..k]) <= Rest(h)
    decreases |h|
  {
    if h != [] {
      var front, last := h[..|h| - 1], h[|h| - 1];
      assert h == front + [last];
      RestIs(front, m, k);
      if k <= |front| { assert front[..k] == h[..k]; } else { assert k <= |h| ==> h[..k] == h; }
    }
  }

  /** The system message that is kept is the latest. */
  lemma {:induction false} SystemsIs(h: seq<Msg>) returns (k: nat)
    ensures Systems(h) == [] ==> forall i :: 0 <= i < |h| ==> !h[i].System?
    ensures Systems(h) != [] ==> k < |h| && h[k].System? && Systems(h) == [h[k]]
    ensures Systems(h) != [] ==> forall i :: k < i < |h| ==> !h[i].System?
    decreases |h|
  {
    k := 0;
    if h != [] {
      if h[|h| - 1].System? { k := |h| - 1; } else { k := SystemsIs(h[..|h| - 1]); }
    }
  }

  lemma CompactIs(h: seq<Msg>, limits: Limits, size: Size, summary: seq<Msg> -> string)
    requires Compact(h, limits, size, summary).1.Some?
    ensures var (out, omitted) := Compact(h, limits, size, summary);
            var rest, cut := Rest(h), omitted.value;
            && 0 < cut <= |rest|
            && out == Systems(h) + [Notice(summary(rest[..cut]))] + Lighten(rest[cut..], size)
  {
    hide Rest, Systems, Cut, Lighten;
  }

  lemma TailAt(out: seq<Msg>, systems: seq<Msg>, notice: Msg, rest: seq<Msg>, cut: nat, size: Size, i: nat)
    requires cut <= |rest| && out == systems + [notice] + Lighten(rest[cut..], size)
    ensures var lead := |systems| + 1;
            && |out| == lead + |rest| - cut && out[..lead - 1] == systems && out[lead - 1] == notice
            && (i < |rest| - cut ==> out[lead + i] == Lightened(rest[cut + i], size))
  {
    hide Lightened;
  }

  // ---- Translating ------------------------------------------------------------------------------------------

  datatype Block =
    | TextBlock(text: string)
    | ToolUse(id: string, name: string, input: string)
    | ToolResult(id: string, text: string)

  datatype Turn =
    | UserText(text: string)
    | UserResults(blocks: seq<Block>)
    | AssistantTurn(blocks: seq<Block>)

  const CONTINUE := UserText("(continue)")

  function ResultBlock(m: Msg): Block
    requires m.Tool?
  {
    ToolResult(m.callId, m.text)
  }

  /** The results at the head of a history. */
  function Run(h: seq<Msg>): (n: nat)
    ensures n <= |h| && (forall i :: 0 <= i < n ==> h[i].Tool?) && (n == |h| || !h[n].Tool?)
    decreases |h|
  {
    if h == [] || !h[0].Tool? then 0
    else
      var n := Run(h[1..]);
      assert forall i :: 0 < i <= n ==> h[i] == h[1..][i - 1];
      n + 1
  }

  function Results(run: seq<Msg>): seq<Block>
    requires forall m :: m in run ==> m.Tool?
  {
    seq(|run|, i requires 0 <= i < |run| => ResultBlock(run[i]))
  }

  function Uses(calls: seq<Call>): seq<Block> {
    seq(|calls|, i requires 0 <= i < |calls| => ToolUse(calls[i].id, calls[i].name, calls[i].input))
  }

  function Blocks(m: Msg): seq<Block>
    requires m.Assistant?
  {
    (if m.text != "" then [TextBlock(m.text)] else []) + Uses(m.calls)
  }

  function Turns(h: seq<Msg>): seq<Turn>
    decreases |h|
  {
    if h == [] then []
    else match h[0]
      case System(_) => Turns(h[1..])
      case Tool(_, _, _) =>
        var n := Run(h);
        [UserResults(Results(h[..n]))] + Turns(h[n..])
      case Assistant(_, _) => (if Blocks(h[0]) != [] then [AssistantTurn(Blocks(h[0]))] else []) + Turns(h[1..])
      case User(text) => (if text != "" then [UserText(text)] else []) + Turns(h[1..])
  }

  function Closed(out: seq<Turn>): seq<Turn> {
    if out == [] || out[|out| - 1].AssistantTurn? then out + [CONTINUE] else out
  }

  function Translate(h: seq<Msg>): seq<Turn> {
    Closed(Turns(h))
  }

  // ---- What a translation is like ----------------------------------------------------------------------------

  ghost predicate NotEmpty(t: Turn) {
    match t
    case UserText(text) => text != ""
    case UserResults(blocks) => blocks != []
    case AssistantTurn(blocks) => blocks != [] && TextBlock("") !in blocks
  }

  lemma {:induction false} TurnsNotEmpty(h: seq<Msg>, i: nat)
    requires i < |Turns(h)|
    ensures NotEmpty(Turns(h)[i])
    decreases |h|
  {
    if h[0].Tool? {
      if i > 0 { TurnsNotEmpty(h[Run(h)..], i - 1); }
    } else {
      var here := |Turns(h)| - |Turns(h[1..])|;
      if i >= here { TurnsNotEmpty(h[1..], i - here); }
    }
  }

  /** No turn is empty, and the last is the user's, whatever the history. */
  lemma TranslationIsAcceptable(h: seq<Msg>, i: nat)
    requires i < |Translate(h)|
    ensures NotEmpty(Translate(h)[i])
    ensures var out := Translate(h); !out[|out| - 1].AssistantTurn?
  {
    if i < |Turns(h)| { TurnsNotEmpty(h, i); }
  }

  /** All that is said, in order: a user's or an assistant's text, a call, a call's result. */
  datatype Item =
    | Said(user: bool, text: string)
    | Called(id: string, name: string, input: string)
    | Returned(id: string, text: string)

  /** What a message says. */
  function MsgItems(m: Msg): seq<Item> {
    match m
    case System(_) => []
    case User(text) => if text != "" then [Said(true, text)] else []
    case Assistant(text, calls) => (if text != "" then [Said(false, text)] else []) + Calls(calls)
    case Tool(id, _, text) => [Returned(id, text)]
  }

  function Calls(calls: seq<Call>): seq<Item> {
    seq(|calls|, i requires 0 <= i < |calls| => Called(calls[i].id, calls[i].name, calls[i].input))
  }

  /** What a block of a turn says. */
  function BlockItem(b: Block): Item {
    match b
    case TextBlock(text) => Said(false, text)
    case ToolUse(id, name, input) => Called(id, name, input)
    case ToolResult(id, text) => Returned(id, text)
  }

  function OfBlocks(blocks: seq<Block>): seq<Item> {
    seq(|blocks|, i requires 0 <= i < |blocks| => BlockItem(blocks[i]))
  }

  function Items(h: seq<Msg>): seq<Item>
    decreases |h|
  {
    if h == [] then [] else MsgItems(h[0]) + Items(h[1..])
  }

  function TurnItems(t: Turn): seq<Item> {
    match t
    case UserText(text) => [Said(true, text)]
    case UserResults(blocks) => OfBlocks(blocks)
    case AssistantTurn(blocks) => OfBlocks(blocks)
  }

  function Flat(out: seq<Turn>): seq<Item>
    decreases |out|
  {
    if out == [] then [] else TurnItems(out[0]) + Flat(out[1..])
  }

  lemma FlatNone()
    ensures Flat([]) == []
    ensures OfBlocks([]) == []
  {}

  lemma FlatCons(t: Turn, out: seq<Turn>)
    ensures Flat([t] + out) == TurnItems(t) + Flat(out)
  {
    assert ([t] + out)[1..] == out;
  }

  lemma {:induction false} FlatSnoc(out: seq<Turn>, t: Turn)
    ensures Flat(out + [t]) == Flat(out) + TurnItems(t)
    decreases |out|
  {
    if out == [] {
      FlatCons(t, []);
      assert out + [t] == [t] + [];
    } else {
      assert (out + [t])[1..] == out[1..] + [t];
      FlatSnoc(out[1..], t);
    }
  }

  lemma AllTools(h: seq<Msg>, n: nat)
    requires n <= |h| && forall i :: 0 <= i < n ==> h[i].Tool?
    ensures forall m :: m in h[..n] ==> m.Tool?
  {}

  lemma ResultsCons(m: Msg, more: seq<Msg>)
    requires m.Tool? && forall x :: x in more ==> x.Tool?
    ensures forall x :: x in [m] + more ==> x.Tool?
    ensures OfBlocks(Results([m] + more)) == [Returned(m.callId, m.text)] + OfBlocks(Results(more))
  {
    assert forall i :: 0 < i <= |more| ==> ([m] + more)[i] == more[i - 1];
  }

  lemma NoResults(run: seq<Msg>)
    requires run == []
    ensures OfBlocks(Results(run)) == []
  {}

  lemma ItemsOfTool(h: seq<Msg>)
    requires h != [] && h[0].Tool?
    ensures Items(h) == [Returned(h[0].callId, h[0].text)] + Items(h[1..])
  {}

  lemma AppendAssoc(a: seq<Item>, b: seq<Item>, c: seq<Item>)
    ensures (a + b) + c == a + (b + c)
  {}

  lemma {:induction false} ItemsOfRun(h: seq<Msg>, n: nat)
    requires n <= |h| && forall i :: 0 <= i < n ==> h[i].Tool?
    ensures forall m :: m in h[..n] ==> m.Tool?
    ensures Items(h) == OfBlocks(Results(h[..n])) + Items(h[n..])
    decreases n
  {
    hide Items, OfBlocks, Results;
    AllTools(h, n);
    if n == 0 {
      NoResults(h[..0]);
      assert h[0..] == h;
    } else {
      ItemsOfRun(h[1..], n - 1);
      var run, more := h[..n], h[1..][..n - 1];
      assert h[1..][n - 1..] == h[n..] && run == [h[0]] + more;
      ResultsCons(h[0], more);
      ItemsOfTool(h);
      AppendAssoc([Returned(h[0].callId, h[0].text)], OfBlocks(Results(more)), Items(h[n..]));
    }
  }

  /** The blocks of an assistant's turn say what the message says. */
  lemma BlocksSay(m: Msg)
    requires m.Assistant?
    ensures OfBlocks(Blocks(m)) == MsgItems(m)
  {
    UsesSay(m.calls);
    hide Uses, Calls;
    if m.text != "" {
      SayFirst(TextBlock(m.text), Uses(m.calls));
    } else {
      assert [] + Uses(m.calls) == Uses(m.calls);
    }
  }

  lemma UsesSay(calls: seq<Call>)
    ensures OfBlocks(Uses(calls)) == Calls(calls)
  {}

  lemma SayFirst(b: Block, more: seq<Block>)
    ensures OfBlocks([b] + more) == [BlockItem(b)] + OfBlocks(more)
  {
    hide BlockItem;
  }

  lemma SpokenItems(m: Msg)
    ensures m.System? ==> MsgItems(m) == []
    ensures m.User? ==> MsgItems(m) == if m.text != "" then [Said(true, m.text)] else []
  {}

  lemma {:induction false} TurnsSayAll(h: seq<Msg>)
    ensures Flat(Turns(h)) == Items(h)
    decreases |h|
  {
    hide Blocks, Results, OfBlocks, Flat, ResultBlock, MsgItems;
    FlatNone();
    if h != [] {
      if h[0].Tool? {
        var n := Run(h);
        TurnsSayAll(h[n..]);
        ItemsOfRun(h, n);
        var run := Results(h[..n]);
        FlatCons(UserResults(run), Turns(h[n..]));
      } else {
        TurnsSayAll(h[1..]);
        assert [] + Turns(h[1..]) == Turns(h[1..]);
        assert [] + Items(h[1..]) == Items(h[1..]);
        SpokenItems(h[0]);
        match h[0] {
          case User(text) => if text != "" { FlatCons(UserText(text), Turns(h[1..])); }
          case Assistant(_, _) =>
            BlocksSay(h[0]);
            if Blocks(h[0]) != [] { FlatCons(AssistantTurn(Blocks(h[0])), Turns(h[1..])); }
          case _ =>
        }
      }
    }
  }

  /** The translation says what the history says, in the same order, and at most "(continue)" more. */
  lemma TranslationSaysAll(h: seq<Msg>)
    ensures Flat(Translate(h)) == Items(h) || Flat(Translate(h)) == Items(h) + [Said(true, "(continue)")]
  {
    TurnsSayAll(h);
    FlatSnoc(Turns(h), CONTINUE);
  }

  // ---- Pairing in the translation ------------------------------------------------------------------------------

  function CallIds(t: Turn): seq<string>
  {
    match t
    case AssistantTurn(blocks) => UseIds(blocks)
    case _ => []
  }

  function UseIds(blocks: seq<Block>): seq<string>
    decreases |blocks|
  {
    if blocks == [] then []
    else (if blocks[0].ToolUse? then [blocks[0].id] else []) + UseIds(blocks[1..])
  }

  function ResultIds(t: Turn): seq<string>
  {
    match t
    case UserResults(blocks) => IdsOf(blocks)
    case _ => []
  }

  function IdsOf(blocks: seq<Block>): seq<string>
    decreases |blocks|
  {
    if blocks == [] then []
    else (if blocks[0].ToolResult? then [blocks[0].id] else []) + IdsOf(blocks[1..])
  }

  /** The turn after `t` holds exactly the results of its calls. */
  ghost predicate Meets(t: Turn, next: Turn) {
    t.AssistantTurn? && next.UserResults? && multiset(CallIds(t)) == multiset(ResultIds(next))
  }

  /** Every call is met in the very next turn, and every result belongs to the turn before. */
  ghost predicate Matched(out: seq<Turn>) {
    && (forall i :: 0 <= i < |out| && CallIds(out[i]) != [] ==> i + 1 < |out| && Meets(out[i], out[i + 1]))
    && (forall i :: 0 <= i < |out| && out[i].UserResults? ==> i > 0 && Meets(out[i - 1], out[i]))
  }

  lemma {:induction false} UseIdsOfCalls(calls: seq<Call>)
    ensures UseIds(Uses(calls)) == Ids(calls)
    decreases |calls|
  {
    if calls != [] {
      UseIdsOfCalls(calls[1..]);
      assert Uses(calls)[1..] == Uses(calls[1..]);
      assert Ids(calls) == [calls[0].id] + Ids(calls[1..]);
    }
  }

  lemma CallIdsOf(m: Msg)
    requires m.Assistant?
    ensures CallIds(AssistantTurn(Blocks(m))) == Ids(m.calls)
    ensures m.calls != [] ==> Blocks(m) != []
  {
    UseIdsOfCalls(m.calls);
    if m.text != "" {
      assert Blocks(m)[1..] == Uses(m.calls);
    } else {
      assert Blocks(m) == Uses(m.calls);
    }
  }

  lemma {:induction false} ResultIdsOf(run: seq<Msg>)
    requires forall m :: m in run ==> m.Tool?
    ensures IdsOf(Results(run)) == Answered(run)
    decreases |run|
  {
    if run != [] {
      assert run[0] in run;
      ResultIdsOf(run[1..]);
      assert Results(run)[1..] == Results(run[1..]);
      assert Answered(run) == [run[0].callId] + Answered(run[1..]);
    }
  }

  /** A turn without calls or results in front changes nothing, unless results follow. */
  lemma MatchedAfterQuiet(t: Turn, out: seq<Turn>)
    requires CallIds(t) == [] && !t.UserResults?
    requires Matched(out)
    ensures Matched([t] + out)
  {
    var all := [t] + out;
    assert forall i :: 0 < i < |all| ==> all[i] == out[i - 1];
  }

  lemma MatchedAfterPair(t: Turn, next: Turn, out: seq<Turn>)
    requires Meets(t, next) && Matched(out)
    ensures Matched([t] + ([next] + out))
  {
    var all := [t] + ([next] + out);
    assert all[0] == t && all[1] == next && forall i :: 1 < i < |all| ==> all[i] == out[i - 2];
  }

  /** The turns of an assistant message with calls and of its results. */
  lemma PairTurns(h: seq<Msg>) returns (next: Turn)
    requires Paired(h) && h != [] && h[0].Assistant? && h[0].calls != []
    ensures Segment(h) <= |h| && Meets(AssistantTurn(Blocks(h[0])), next)
    ensures Turns(h) == [AssistantTurn(Blocks(h[0]))] + ([next] + Turns(h[Segment(h)..]))
  {
    hide Paired, Turns, Blocks, Results, Uses, Meets, Answers;
    SegmentOf(h);
    SegmentAnswers(h);
    var n := Segment(h);
    var rest, run := h[1..], h[1..n];
    if n < |h| { PairedStart(h[n..]); assert h[n] == h[n..][0]; }
    RunOf(h, n);
    assert rest[..n - 1] == run && rest[n - 1..] == h[n..];
    MeetOf(h[0], run);
    CallIdsOf(h[0]);
    next := UserResults(Results(run));
    TurnsOfPair(h, rest, run, h[n..]);
  }

  lemma MeetOf(m: Msg, run: seq<Msg>)
    requires m.Assistant? && Answers(m.calls, run)
    ensures Meets(AssistantTurn(Blocks(m)), UserResults(Results(run)))
  {
    CallIdsOf(m);
    ResultIdsOf(run);
  }

  lemma RunOf(h: seq<Msg>, n: nat)
    requires 1 <= n <= |h| && (forall i :: 0 < i < n ==> h[i].Tool?) && (n == |h| || !h[n].Tool?)
    ensures Run(h[1..]) == n - 1
  {
    var rest := h[1..];
    assert forall i :: 0 <= i < |rest| ==> rest[i] == h[i + 1];
  }

  lemma TurnsOfPair(h: seq<Msg>, rest: seq<Msg>, run: seq<Msg>, more: seq<Msg>)
    requires h != [] && h[0].Assistant? && Blocks(h[0]) != [] && rest == h[1..]
    requires run != [] && rest == run + more && Run(rest) == |run| && (forall m :: m in run ==> m.Tool?)
    ensures Turns(h) == [AssistantTurn(Blocks(h[0]))] + ([UserResults(Results(run))] + Turns(more))
  {
    hide Blocks, Results;
    assert rest[..|run|] == run && rest[|run|..] == more;
    assert rest[0] == run[0] && run[0] in run;
  }

  lemma NothingMatches()
    ensures Turns([]) == [] && Matched([])
  {}

  lemma {:induction false} PairedTurnsMatch(h: seq<Msg>)
    requires Paired(h)
    ensures Matched(Turns(h))
    decreases |h|
  {
    hide Paired, Blocks, Turns, Matched, Meets, Answers;
    NothingMatches();
    if h != [] {
      SegmentOf(h);
      var n := Segment(h);
      PairedTurnsMatch(h[n..]);
      if h[0].Assistant? && h[0].calls != [] {
        var t := AssistantTurn(Blocks(h[0]));
        var next := PairTurns(h);
        MatchedAfterPair(t, next, Turns(h[n..]));
      } else {
        var quiet := QuietTurn(h);
        assert [] + Turns(h[1..]) == Turns(h[1..]);
        if quiet != [] {
          assert quiet == [quiet[0]];
          MatchedAfterQuiet(quiet[0], Turns(h[1..]));
        }
      }
    }
  }

  /** A message that neither calls nor answers makes one turn at most. */
  lemma QuietTurn(h: seq<Msg>) returns (t: seq<Turn>)
    requires h != [] && !h[0].Tool? && (h[0].Assistant? ==> h[0].calls == [])
    ensures Turns(h) == t + Turns(h[1..])
    ensures t == [] || (|t| == 1 && CallIds(t[0]) == [] && !t[0].UserResults?)
  {
    hide Blocks, CallIds;
    var rest := Turns(h[1..]);
    match h[0] {
      case System(_) => t := []; assert [] + rest == rest;
      case User(text) =>
        t := if text != "" then [UserText(text)] else [];
        NoCallsInText(text);
      case Assistant(_, calls) =>
        CallIdsOf(h[0]);
        t := if Blocks(h[0]) != [] then [AssistantTurn(Blocks(h[0]))] else [];
    }
  }

  lemma NoCallsInText(text: string)
    ensures CallIds(UserText(text)) == []
  {}

  lemma ClosedMatches(out: seq<Turn>)
    requires Matched(out)
    ensures Matched(Closed(out))
  {
    var closed := Closed(out);
    assert forall i :: 0 <= i < |out| ==> closed[i] == out[i];
  }

  /** A paired history is translated with every assistant turn's results in the very next turn. */
  lemma TranslationMatches(h: seq<Msg>)
    requires Paired(h)
    ensures Matched(Translate(h))
  {
    PairedTurnsMatch(h);
    ClosedMatches(Turns(h));
  }

  /** Compacting and then translating keeps every call matched with its results. */
  lemma CompactedTranslationMatches(h: seq<Msg>, limits: Limits, size: Size, summary: seq<Msg> -> string)
    requires Paired(h)
    ensures Matched(Translate(Compact(h, limits, size, summary).0))
  {
    CompactKeepsPairs(h, limits, size, summary);
    TranslationMatches(Compact(h, limits, size, summary).0);
  }

  // ---- ... and only then -----------------------------------------------------------------------------------------

  /** A message that says something. */
  predicate Loud(m: Msg) {
    match m
    case System(_) => false
    case User(text) => text != ""
    case Assistant(text, calls) => text != "" || calls != []
    case Tool(_, _, _) => true
  }

  lemma MeetsNeedsCalls(t: Turn, next: Turn)
    ensures Meets(t, next) && ResultIds(next) != [] ==> CallIds(t) != []
  {
    assert |multiset(ResultIds(next))| == |ResultIds(next)|;
  }

  lemma MatchedTail(t: Turn, out: seq<Turn>)
    requires Matched([t] + out) && CallIds(t) == []
    requires out != [] && out[0].UserResults? ==> ResultIds(out[0]) != []
    ensures !t.UserResults? && Matched(out)
  {
    var all := [t] + out;
    assert all[0] == t && forall i :: 0 <= i < |out| ==> out[i] == all[i + 1];
    if out != [] { MeetsNeedsCalls(t, out[0]); }
  }

  lemma MatchedPairTail(t: Turn, next: Turn, out: seq<Turn>)
    requires Matched([t] + ([next] + out)) && (out == [] || !out[0].UserResults?)
    ensures CallIds(t) != [] ==> Meets(t, next)
    ensures Matched(out)
  {
    var all := [t] + ([next] + out);
    assert all[0] == t && all[1] == next && forall i :: 0 <= i < |out| ==> out[i] == all[i + 2];
  }

  /** How the turns of loud messages start. */
  lemma LoudStart(h: seq<Msg>)
    requires h != [] && Loud(h[0])
    ensures Turns(h) != []
    ensures Turns(h)[0].UserResults? <==> h[0].Tool?
    ensures h[0].User? ==> Turns(h) == [UserText(h[0].text)] + Turns(h[1..])
    ensures h[0].Assistant? ==> Turns(h) == [AssistantTurn(Blocks(h[0]))] + Turns(h[1..])
    ensures h[0].Tool? ==> Run(h) > 0 && Turns(h) == [UserResults(Results(h[..Run(h)]))] + Turns(h[Run(h)..])
  {}

  lemma ResultsOfRun(h: seq<Msg>)
    requires h != [] && h[0].Tool?
    ensures Run(h) > 0 && (forall m :: m in h[..Run(h)] ==> m.Tool?)
    ensures ResultIds(UserResults(Results(h[..Run(h)]))) == Answered(h[..Run(h)])
  {
    AllTools(h, Run(h));
    ResultIdsOf(h[..Run(h)]);
  }

  lemma SameSize(calls: seq<Call>, run: seq<Msg>)
    requires (forall m :: m in run ==> m.Tool?) && multiset(Ids(calls)) == multiset(Answered(run))
    ensures |run| == |calls| && Answers(calls, run)
  {
    assert |multiset(Ids(calls))| == |calls| && |multiset(Answered(run))| == |run|;
  }

  /** A matched assistant turn with calls is followed by its results, and what comes after them is matched. */
  lemma CallsAreMet(h: seq<Msg>)
    requires h != [] && (forall m :: m in h ==> Loud(m))
    requires h[0].Assistant? && h[0].calls != [] && Matched(Turns(h))
    ensures var n := Segment(h);
            n <= |h| && Answers(h[0].calls, h[1..n]) && Matched(Turns(h[n..]))
  {
    hide Turns, Blocks, Results, Answers, Paired, Matched, Meets, CallIds, ResultIds;
    var rest := h[1..];
    CallsComeFirst(h, rest);
    var t := AssistantTurn(Blocks(h[0]));
    var run, more := FirstRun(rest);
    CallIdsOf(h[0]);
    CutAtRun(h, run, more);
    if more != [] { LoudAfterRun(h, |run|); }
    TurnsOfNone();
    MatchedPairTail(t, UserResults(Results(run)), Turns(more));
    MetAnswers(h[0], t, run);
  }

  lemma CutAtRun(h: seq<Msg>, run: seq<Msg>, more: seq<Msg>)
    requires h != [] && h[1..] == run + more
    ensures h[|run| + 1..] == more && h[1..|run| + 1] == run
  {}

  lemma FirstRun(rest: seq<Msg>) returns (run: seq<Msg>, more: seq<Msg>)
    requires rest != [] && rest[0].Tool?
    ensures |run| == Run(rest) && run == rest[..Run(rest)] && rest == run + more && (forall m :: m in run ==> m.Tool?)
    ensures Turns(rest) == [UserResults(Results(run))] + Turns(more)
  {
    LoudStart(rest);
    ResultsOfRun(rest);
    run, more := rest[..Run(rest)], rest[Run(rest)..];
  }

  lemma LoudAfterRun(h: seq<Msg>, k: nat)
    requires h != [] && k == Run(h[1..]) && h[k + 1..] != [] && forall m :: m in h ==> Loud(m)
    ensures Turns(h[k + 1..]) != [] && !Turns(h[k + 1..])[0].UserResults?
  {
    hide Turns;
    assert h[k + 1..][0] == h[1..][k] == h[k + 1] && h[k + 1] in h;
    LoudStart(h[k + 1..]);
  }

  lemma MetAnswers(m: Msg, t: Turn, run: seq<Msg>)
    requires m.Assistant? && t == AssistantTurn(Blocks(m)) && forall r :: r in run ==> r.Tool?
    requires Meets(t, UserResults(Results(run)))
    ensures |run| == |m.calls| && Answers(m.calls, run)
  {
    CallIdsOf(m);
    ResultIdsOf(run);
    SameSize(m.calls, run);
  }

  lemma CallsComeFirst(h: seq<Msg>, rest: seq<Msg>)
    requires h != [] && rest == h[1..] && (forall m :: m in h ==> Loud(m))
    requires h[0].Assistant? && h[0].calls != [] && Matched(Turns(h))
    ensures rest != [] && rest[0].Tool? && Loud(rest[0])
    ensures Turns(h) == [AssistantTurn(Blocks(h[0]))] + Turns(rest)
  {
    hide Turns, Blocks, Results, Paired;
    assert h[0] in h;
    LoudStart(h);
    CallIdsOf(h[0]);
    var all := Turns(h);
    assert Meets(all[0], all[1]) && all[1] == Turns(rest)[0];
    TurnsOfNone();
    assert rest[0] == h[1] && h[1] in h;
    LoudStart(rest);
  }

  lemma TurnsOfNone()
    ensures Turns([]) == []
  {}

  lemma {:induction false} MatchedOnlyIfPaired(h: seq<Msg>)
    requires (forall m :: m in h ==> Loud(m)) && Matched(Turns(h))
    ensures Paired(h)
    decreases |h|
  {
    hide Turns, Blocks, Results, Answers, Paired;
    PairedStart([]);
    if h != [] {
      assert h[0] in h;
      LoudStart(h);
      if h[0].Assistant? && h[0].calls != [] {
        CallsAreMet(h);
        MatchedOnlyIfPaired(h[Segment(h)..]);
      } else {
        var t, rest := Turns(h)[0], h[1..];
        if h[0].Assistant? { CallIdsOf(h[0]); NoCalls(h[0].calls); assert h[1..1] == []; }
        if rest != [] {
          assert rest[0] == h[1] && h[1] in h;
          LoudStart(rest);
          if rest[0].Tool? { ResultsOfRun(rest); }
        }
        TurnsOfNone();
        assert !h[0].Tool?;
        MatchedTail(t, Turns(rest));
        MatchedOnlyIfPaired(rest);
      }
      SegmentPairs(h, Segment(h));
    }
  }

  lemma NoCalls(calls: seq<Call>)
    requires calls == []
    ensures Ids(calls) == [] && Answers(calls, [])
  {
    assert Answered([]) == [];
  }

  lemma ClosedMatchesOnlyIf(out: seq<Turn>)
    requires Matched(Closed(out))
    ensures Matched(out)
  {
    var closed := Closed(out);
    assert forall i :: 0 <= i < |out| ==> closed[i] == out[i];
    if |closed| > |out| { assert closed[|out|] == CONTINUE; }
  }

  /** When every message says something, the translation matches calls and results exactly when
      the history pairs them. */
  lemma TranslationMatchesIff(h: seq<Msg>)
    requires forall m :: m in h ==> Loud(m)
    ensures Matched(Translate(h)) <==> Paired(h)
  {
    if Paired(h) {
      TranslationMatches(h);
    } else if Matched(Translate(h)) {
      ClosedMatchesOnlyIf(Turns(h));
      MatchedOnlyIfPaired(h);
    }
  }

  // ---- The loops in place ---------------------------------------------------------------------------------------

  lemma RestSnoc(h: seq<Msg>, i: nat)
    requires i < |h|
    ensures Rest(h[..i + 1]) == Rest(h[..i]) + if h[i].System? then [] else [h[i]]
    ensures Systems(h[..i + 1]) == if h[i].System? then [h[i]] else Systems(h[..i])
  {
    assert h[..i + 1][..i] == h[..i];
  }

  method SetSystemAside(conversation: seq<Msg>) returns (system: seq<Msg>, rest: seq<Msg>)
    ensures system == Systems(conversation) && rest == Rest(conversation)
  {
    system, rest := [], [];
    for i := 0 to |conversation|
      invariant system == Systems(conversation[..i]) && rest == Rest(conversation[..i])
    {
      RestSnoc(conversation, i);
      if conversation[i].System? { system := [conversation[i]]; } else { rest := rest + [conversation[i]]; }
    }
    assert conversation[..|conversation|] == conversation;
  }

  ghost predicate SplitAt(rest: seq<Msg>, head: seq<Msg>, tail: seq<Msg>) {
    |head| <= |rest| && head == rest[..|head|] && tail == rest[|head|..]
  }

  lemma SplitNow(rest: seq<Msg>, head: seq<Msg>, tail: seq<Msg>)
    requires head + tail == rest
    ensures SplitAt(rest, head, tail) && |head| + |tail| == |rest| && tail == rest[|head|..]
  {}

  lemma MoveOne(rest: seq<Msg>, head: seq<Msg>, tail: seq<Msg>)
    requires SplitAt(rest, head, tail) && tail != []
    ensures SplitAt(rest, head + [tail[0]], tail[1..]) && |head + [tail[0]]| == |head| + 1
    ensures tail[0] == rest[|head|] && |head| + |tail| == |rest| && tail[1..] == rest[|head| + 1..]
  {}

  lemma WholeAgain(rest: seq<Msg>, head: seq<Msg>, tail: seq<Msg>)
    requires SplitAt(rest, head, tail)
    ensures head + tail == rest
  {}

  method SplitHeadTail(conversation: seq<Msg>, keepChars: int, keepMessages: int, size: Size)
    returns (system: seq<Msg>, head: seq<Msg>, tail: seq<Msg>)
    ensures system == Systems(conversation)
    ensures head + tail == Rest(conversation)
    ensures |head| == Cut(Rest(conversation), keepChars, keepMessages, size)
  {
    hide Rest, Systems, SplitAt;
    var rest;
    system, rest := SetSystemAside(conversation);
    var tailN := Max(1, keepMessages);
    if |rest| <= tailN { head, tail := [], rest; }
    else { head, tail := rest[..|rest| - tailN], rest[|rest| - tailN..]; }
    ghost var start := |head|;
    SplitNow(rest, head, tail);
    while size(tail) > keepChars && |tail| > 1
      invariant SplitAt(rest, head, tail) && |head| + |tail| == |rest| && tail == rest[|head|..]
      invariant Shrunk(rest, start, keepChars, size) == Shrunk(rest, |head|, keepChars, size)
      decreases |tail|
    {
      MoveOne(rest, head, tail);
      head, tail := head + [tail[0]], tail[1..];
    }
    ghost var shrunk := |head|;
    while tail != [] && tail[0].Tool?
      invariant SplitAt(rest, head, tail) && |head| + |tail| == |rest| && tail == rest[|head|..]
      invariant PastResults(rest, shrunk) == PastResults(rest, |head|)
      decreases |tail|
    {
      MoveOne(rest, head, tail);
      head, tail := head + [tail[0]], tail[1..];
    }
    WholeAgain(rest, head, tail);
  }

  method Assemble(system: seq<Msg>, tail: seq<Msg>, body: string, size: Size) returns (out: seq<Msg>)
    ensures out == system + [Notice(body)] + Lighten(tail, size)
  {
    var newTail: seq<Msg> := [];
    for i := 0 to |tail|
      invariant |newTail| == i && forall k :: 0 <= k < i ==> newTail[k] == Lightened(tail[k], size)
    {
      if tail[i].Tool? && size([tail[i]]) > TOOL_LIMIT { newTail := newTail + [Omitted(tail[i])]; }
      else { newTail := newTail + [tail[i]]; }
    }
    assert newTail == Lighten(tail, size);
    out := system + [Notice(body)] + newTail;
  }

  method CompactConversation(conversation: seq<Msg>, limits: Limits, size: Size, summary: seq<Msg> -> string)
    returns (out: seq<Msg>, omitted: Option<nat>)
    ensures (out, omitted) == Compact(conversation, limits, size, summary)
  {
    hide Lighten, Rest, Systems, Cut;
    if limits.soft <= 0 { return conversation, None; }
    if size(conversation) <= limits.soft { return conversation, None; }
    var system, head, tail := SplitHeadTail(conversation, limits.keepChars, limits.keepMessages, size);
    if head == [] { return conversation, None; }
    ghost var rest := Rest(conversation);
    assert head == rest[..|head|] && tail == rest[|head|..];
    out := Assemble(system, tail, summary(head), size);
    omitted := Some(|head|);
  }

  lemma RegroupTurns(a: seq<Turn>, b: seq<Turn>, c: seq<Turn>)
    ensures (a + b) + c == a + (b + c)
  {}

  /** One pass over a run of results. */
  method TakeRun(messages: seq<Msg>, start: nat) returns (i: nat, blocks: seq<Block>)
    requires start < |messages| && messages[start].Tool?
    ensures start < i <= |messages| && forall k :: start <= k < i ==> messages[k].Tool?
    ensures Turns(messages[start..]) == [UserResults(blocks)] + Turns(messages[i..])
  {
    i, blocks := start, [];
    while i < |messages| && messages[i].Tool?
      invariant start <= i <= |messages| && |blocks| == i - start
      invariant forall k :: start <= k < i ==> messages[k].Tool? && blocks[k - start] == ResultBlock(messages[k])
    {
      blocks := blocks + [ResultBlock(messages[i])];
      i := i + 1;
    }
    ghost var h, n := messages[start..], i - start;
    assert forall k :: 0 <= k < |h| ==> h[k] == messages[start + k];
    RunIs(h, n);
    assert h[n..] == messages[i..];
    assert Results(h[..n]) == blocks;
  }

  lemma RunIs(h: seq<Msg>, n: nat)
    requires n <= |h| && (forall i :: 0 <= i < n ==> h[i].Tool?) && (n == |h| || !h[n].Tool?)
    ensures Run(h) == n
  {}

  /** What a message that is no result adds. */
  lemma TurnsStep(h: seq<Msg>, added: seq<Turn>)
    requires h != [] && !h[0].Tool?
    requires added == match h[0]
                      case Assistant(_, _) => if Blocks(h[0]) != [] then [AssistantTurn(Blocks(h[0]))] else []
                      case User(text) => if text != "" then [UserText(text)] else []
                      case _ => []
    ensures Turns(h) == added + Turns(h[1..])
  {
    hide Blocks;
    assert [] + Turns(h[1..]) == Turns(h[1..]);
  }

  // ---- The system text -------------------------------------------------------------------------------------

  function Part(m: Msg): seq<string> {
    if m.System? && m.text != "" then [m.text] else []
  }

  /** The texts of the system messages that have one. */
  function SystemTexts(h: seq<Msg>): seq<string>
    decreases |h|
  {
    if h == [] then [] else SystemTexts(h[..|h| - 1]) + Part(h[|h| - 1])
  }

  /** `"\n\n".join(parts)`. */
  function Joined(parts: seq<string>): string
    decreases |parts|
  {
    if parts == [] then ""
    else if |parts| == 1 then parts[0]
    else Joined(parts[..|parts| - 1]) + "\n\n" + parts[|parts| - 1]
  }

  function SystemText(h: seq<Msg>): Option<string> {
    var parts := SystemTexts(h);
    if parts == [] then None else Some(Joined(parts))
  }

  /** The system text is the texts of the system messages that have one, joined by blank lines. */
  lemma SystemTextLaw(h: seq<Msg>, m: Msg)
    ensures SystemText([]) == None
    ensures SystemText(h + [m])
            == if !m.System? || m.text == "" then SystemText(h)
               else if SystemText(h) == None then Some(m.text)
               else Some(SystemText(h).value + "\n\n" + m.text)
  {
    assert (h + [m])[..|h|] == h;
    var parts := SystemTexts(h);
    if m.System? && m.text != "" {
      assert SystemTexts(h + [m]) == parts + [m.text];
      assert (parts + [m.text])[..|parts|] == parts;
    } else {
      assert parts + [] == parts;
    }
  }

  lemma {:induction false} TextsAppend(a: seq<Msg>, b: seq<Msg>)
    ensures SystemTexts(a + b) == SystemTexts(a) + SystemTexts(b)
    decreases |b|
  {
    if b == [] {
      assert a + b == a;
    } else {
      assert (a + b)[..|a + b| - 1] == a + b[..|b| - 1];
      TextsAppend(a, b[..|b| - 1]);
    }
  }

  lemma {:induction false} SilentTexts(h: seq<Msg>)
    ensures SystemTexts(h) == [] <==> forall i :: 0 <= i < |h| && h[i].System? ==> h[i].text == ""
    decreases |h|
  {
    if h != [] {
      SilentTexts(h[..|h| - 1]);
      assert forall i :: 0 <= i < |h| - 1 ==> h[..|h| - 1][i] == h[i];
    }
  }

  /** No system message but the latest says anything. */
  ghost predicate OnlyLatestSpeaks(h: seq<Msg>) {
    forall i, j :: 0 <= i < j < |h| && h[i].System? && h[j].System? ==> h[i].text == ""
  }

  /** The latest system message comes last; `more` is what the older ones say. */
  lemma {:induction false} LatestIsLast(h: seq<Msg>) returns (more: seq<string>)
    ensures SystemTexts(h) == more + SystemTexts(Systems(h))
    ensures more == [] <==> OnlyLatestSpeaks(h)
    decreases |h|
  {
    hide OnlyLatestSpeaks;
    if h == [] {
      more := [];
      LatestSnoc([], System(""));
    } else {
      var front, last := h[..|h| - 1], h[|h| - 1];
      assert h == front + [last];
      LatestSnoc(front, last);
      if last.System? {
        more := SystemTexts(front);
        TextsAppend([], [last]);
        assert [] + [last] == [last];
      } else {
        more := LatestIsLast(front);
        assert SystemTexts(h) == SystemTexts(front) + [];
      }
    }
  }

  lemma LatestSnoc(front: seq<Msg>, last: Msg)
    ensures OnlyLatestSpeaks([])
    ensures last.System? ==> (SystemTexts(front) == [] <==> OnlyLatestSpeaks(front + [last]))
    ensures !last.System? ==> (OnlyLatestSpeaks(front) <==> OnlyLatestSpeaks(front + [last]))
  {
    hide SystemTexts;
    var h := front + [last];
    assert forall i :: 0 <= i < |front| ==> front[i] == h[i];
    SilentTexts(front);
    if last.System? && OnlyLatestSpeaks(h) {
      forall i | 0 <= i < |front| && front[i].System? ensures front[i].text == "" {
        assert h[i].System? && h[|front|].System?;
      }
    }
    if OnlyLatestSpeaks(h) {
      forall i, j | 0 <= i < j < |front| && front[i].System? && front[j].System? ensures front[i].text == "" {
        assert h[i].System? && h[j].System?;
      }
    }
  }

  lemma CompactedTexts(systems: seq<Msg>, notice: Msg, tail: seq<Msg>)
    requires notice.User? && forall m :: m in tail ==> !m.System?
    ensures SystemTexts(systems + [notice] + tail) == SystemTexts(systems)
  {
    hide SystemTexts;
    TextsAppend(systems + [notice], tail);
    TextsAppend(systems, [notice]);
    SilentTexts(tail);
    SilentTexts([notice]);
  }

  lemma LightenedTail(rest: seq<Msg>, cut: nat, size: Size)
    requires cut <= |rest| && forall m :: m in rest ==> !m.System?
    ensures forall m :: m in Lighten(rest[cut..], size) ==> !m.System?
  {
    hide Lightened;
    var tail := rest[cut..];
    forall m | m in Lighten(tail, size) ensures !m.System? {
      var i :| 0 <= i < |tail| && Lightened(tail[i], size) == m;
      assert rest[cut + i] in rest;
      LightenedIs(tail[i], size);
    }
  }

  /** Compacting keeps the system text exactly when no system message but the latest says anything. */
  lemma CompactKeepsSystemTextIff(h: seq<Msg>, limits: Limits, size: Size, summary: seq<Msg> -> string)
    requires Compact(h, limits, size, summary).1.Some?
    ensures SystemText(Compact(h, limits, size, summary).0) == SystemText(h) <==> OnlyLatestSpeaks(h)
  {
    hide Rest, Systems, Cut, Lighten, SystemTexts;
    var rest, cut := Rest(h), Compact(h, limits, size, summary).1.value;
    RestHasNoSystem(h);
    LightenedTail(rest, cut, size);
    CompactedTexts(Systems(h), Notice(summary(rest[..cut])), Lighten(rest[cut..], size));
    var more := LatestIsLast(h);
    OneText(h);
    LongerText(more, SystemTexts(Systems(h)));
  }

  lemma OneText(h: seq<Msg>)
    ensures |SystemTexts(Systems(h))| <= 1
    decreases |h|
  {
    if h != [] && !h[|h| - 1].System? {
      OneText(h[..|h| - 1]);
    } else if h != [] {
      assert [h[|h| - 1]][..0] == [];
    }
  }

  lemma LongerText(more: seq<string>, latest: seq<string>)
    requires |latest| <= 1
    ensures latest == [] || more == [] || Joined(more + latest) != Joined(latest)
    ensures more == [] ==> more + latest == latest
  {
    if |latest| == 1 && more != [] {
      assert (more + latest)[|more|] == latest[0];
      assert |Joined(more + latest)| >= 2 + |latest[0]|;
    }
  }

  lemma TextsSnoc(messages: seq<Msg>, i: nat)
    requires i < |messages|
    ensures SystemTexts(messages[..i + 1]) == SystemTexts(messages[..i]) + Part(messages[i])
  {
    assert messages[..i + 1][..i] == messages[..i];
  }

  lemma TextsOfRun(messages: seq<Msg>, start: nat, i: nat)
    requires start <= i <= |messages| && forall k :: start <= k < i ==> messages[k].Tool?
    ensures SystemTexts(messages[..i]) == SystemTexts(messages[..start])
  {
    assert messages[..i] == messages[..start] + messages[start..i];
    TextsAppend(messages[..start], messages[start..i]);
    SilentTexts(messages[start..i]);
  }

  method ToAnthropicMessages(messages: seq<Msg>) returns (system: Option<string>, out: seq<Turn>)
    ensures system == SystemText(messages)
    ensures out == Translate(messages)
  {
    hide Turns, Blocks, Results, SystemTexts;
    var systemParts: seq<string> := [];
    out := [];
    var i := 0;
    assert messages[0..] == messages && messages[..0] == [];
    SilentTexts([]);
    while i < |messages|
      invariant 0 <= i <= |messages|
      invariant systemParts == SystemTexts(messages[..i])
      invariant Turns(messages) == out + Turns(messages[i..])
    {
      var m := messages[i];
      ghost var h, before := messages[i..], out;
      assert h[0] == m && h[1..] == messages[i + 1..];
      if m.Tool? {
        var blocks;
        ghost var start := i;
        i, blocks := TakeRun(messages, i);
        TextsOfRun(messages, start, i);
        out := out + [UserResults(blocks)];
        RegroupTurns(before, [UserResults(blocks)], Turns(messages[i..]));
      } else {
        ghost var added: seq<Turn> := [];
        TextsSnoc(messages, i);
        if m.System? {
          if m.text != "" { systemParts := systemParts + [m.text]; }
        } else if m.Assistant? {
          var blocks := Blocks(m);
          if blocks != [] { out := out + [AssistantTurn(blocks)]; added := [AssistantTurn(blocks)]; }
        } else if m.User? && m.text != "" {
          out := out + [UserText(m.text)];
          added := [UserText(m.text)];
        }
        i := i + 1;
        TurnsStep(h, added);
        RegroupTurns(before, added, Turns(messages[i..]));
      }
    }
    assert messages[i..] == [] && messages[..i] == messages;
    TurnsOfNone();
    if out == [] || out[|out| - 1].AssistantTurn? { out := out + [CONTINUE]; }
    system := if systemParts == [] then None else Some(Joined(systemParts));
  }
}
