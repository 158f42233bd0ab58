/** Splitting long outbound chat text (src/agent_augury/channels/chunk.py:17-108). */
module Chunk {
  import opened Tables
  import opened PyText

  const INDICATOR_RESERVE := 10
  const FENCE_CLOSE: string := "\n```"
  const TICKS: string := "```"

  // ---- Python's searches -----------------------------------------------------------------------

  /** `s[:n]`, which stops at the end of s. */
  function Take(s: string, n: nat): string {
    if n <= |s| then s[..n] else s
  }

  /** `s.rfind(c, 0, end)`. */
  function RFind(s: string, c: char, end: int): (r: int)
    requires end <= |s|
    ensures r == -1 || 0 <= r < end
    decreases end
  {
    if end <= 0 then -1 else if s[end - 1] == c then end - 1 else RFind(s, c, end - 1)
  }

  /** Backticks that no backslash precedes: count("`") less count("\\`"). */
  function BareTicks(s: string): nat {
    if s == "" then 0
    else BareTicks(s[..|s| - 1]) + if s[|s| - 1] == '`' && !(|s| > 1 && s[|s| - 2] == '\\') then 1 else 0
  }

  /** The last backtick at or before `at` that no backslash precedes (or one at 0, or -1). */
  function LastBare(s: string, at: int): (r: int)
    requires at < |s|
    ensures r <= at
    decreases at
  {
    if at > 0 && s[at - 1] == '\\' then LastBare(s, RFind(s, '`', at)) else at
  }

  /** `s.split("\n")`. */
  function Lines(s: string): (r: seq<string>)
    ensures |r| >= 1
  {
    if s == "" then [""]
    else if s[0] == '\n' then [""] + Lines(s[1..])
    else
      var r := Lines(s[1..]);
      [[s[0]] + r[0]] + r[1..]
  }

  predicate StartsWith(s: string, p: string) {
    |p| <= |s| && s[..|p|] == p
  }

  /** The line test of the program: `line.strip().startswith("```")`. */
  predicate IsFence(line: string) {
    StartsWith(Strip(line), TICKS)
  }

  /** `tag.split()[0]` of a text that does not start with white space. */
  function FirstWord(s: string): string {
    if s == "" || IsSpace(s[0]) then "" else [s[0]] + FirstWord(s[1..])
  }

  // ---- One chunk -----------------------------------------------------------------------------------

  /** What one chunk holds: the language of the block it reopens, its own part of the text, and
      whether a closing fence is appended. */
  datatype Piece = Piece(carry: Option<string>, body: string, closed: bool)

  function Prefix(carry: Option<string>): string {
    if carry.Some? then TICKS + carry.value + "\n" else ""
  }

  function Render(p: Piece): string {
    Prefix(p.carry) + p.body + if p.closed then FENCE_CLOSE else ""
  }

  function Headroom(limit: int, carry: Option<string>): (r: nat)
    ensures r >= 1
  {
    var room := limit - INDICATOR_RESERVE - |Prefix(carry)| - |FENCE_CLOSE|;
    if room < 1 then Max(1, limit / 2) else room
  }

  function Max(a: int, b: int): int {
    if a < b then b else a
  }

  predicate IsLast(remaining: string, carry: Option<string>, limit: int) {
    |Prefix(carry)| + |remaining| <= limit - INDICATOR_RESERVE
  }

  /** Where a natural boundary is: the last newline of the second half of the room, else the last
      space, else the end of the room. */
  function Boundary(remaining: string, headroom: nat): (r: nat)
    requires headroom >= 1
    ensures 1 <= r <= headroom
  {
    var region := Take(remaining, headroom);
    var newline := RFind(region, '\n', |region|);
    var at := if newline < headroom / 2 then RFind(region, ' ', |region|) else newline;
    if at < 1 then headroom else at
  }

  /** A boundary moved back to before an inline code span it would cut. */
  function BeforeSpan(candidate: string, at: nat, headroom: nat): (r: nat)
    requires 1 <= at <= headroom && |candidate| <= at
    ensures 1 <= r <= at
  {
    var tick := LastBare(candidate, RFind(candidate, '`', |candidate|));
    if tick > 0 then
      var safe := Max(RFind(candidate, ' ', tick), RFind(candidate, '\n', tick));
      if safe > headroom / 4 then safe else at
    else at
  }

  function CutAt(remaining: string, headroom: nat): (r: nat)
    requires headroom >= 1
    ensures 1 <= r <= headroom
  {
    var at := Boundary(remaining, headroom);
    var candidate := Take(remaining, at);
    if BareTicks(candidate) % 2 == 1 then BeforeSpan(candidate, at, headroom) else at
  }

  /** The language a fence line opens. */
  function Info(line: string): string
    requires IsFence(line)
  {
    FirstWord(Strip(Strip(line)[3..]))
  }

  /** The open block's language after some lines, if a block is open. */
  function After(open: Option<string>, lines: seq<string>): Option<string>
    decreases |lines|
  {
    if lines == [] then open
    else
      var l := lines[|lines| - 1];
      var before := After(open, lines[..|lines| - 1]);
      if !IsFence(l) then before else if before.Some? then None else Some(Info(l))
  }

  function OpenAfter(open: Option<string>, body: string): Option<string> {
    After(open, Lines(body))
  }

  function BodyOf(remaining: string, carry: Option<string>, limit: int): (body: string)
    ensures |body| <= |remaining| && (remaining != "" ==> body != "")
  {
    Take(remaining, CutAt(remaining, Headroom(limit, carry)))
  }

  lemma BodyIsPrefix(remaining: string, carry: Option<string>, limit: int)
    ensures BodyOf(remaining, carry, limit) == remaining[..|BodyOf(remaining, carry, limit)|]
  {}

  function Pieces(remaining: string, carry: Option<string>, limit: int): seq<Piece>
    decreases |remaining|
  {
    if remaining == "" then []
    else if IsLast(remaining, carry, limit) then
      [Piece(carry, remaining, carry.Some? && OpenAfter(carry, remaining).Some?)]
    else
      var body := BodyOf(remaining, carry, limit);
      var open := OpenAfter(carry, body);
      [Piece(carry, body, open.Some?)] + Pieces(LStrip(remaining[|body|..]), open, limit)
  }

  /** The last round. */
  lemma PiecesEnd(remaining: string, carry: Option<string>, limit: int)
    requires remaining == "" || IsLast(remaining, carry, limit)
    ensures var closed := carry.Some? && OpenAfter(carry, remaining).Some?;
            Pieces(remaining, carry, limit) == if remaining == "" then [] else [Piece(carry, remaining, closed)]
  {
    hide OpenAfter, IsLast;
  }

  /** One round of the loop that is not the last. */
  lemma PiecesStep(remaining: string, carry: Option<string>, limit: int)
    returns (body: string, open: Option<string>, rest: string)
    requires remaining != "" && !IsLast(remaining, carry, limit)
    ensures body != "" && body <= remaining && |body| <= Headroom(limit, carry)
    ensures open == OpenAfter(carry, body)
    ensures rest == LStrip(remaining[|body|..]) && |rest| < |remaining|
    ensures Pieces(remaining, carry, limit) == [Piece(carry, body, open.Some?)] + Pieces(rest, open, limit)
  {
    body := BodyOf(remaining, carry, limit);
    BodyIsPrefix(remaining, carry, limit);
    open := OpenAfter(carry, body);
    rest := LStrip(remaining[|body|..]);
  }

  function Rendered(ps: seq<Piece>): seq<string> {
    seq(|ps|, i requires 0 <= i < |ps| => Render(ps[i]))
  }

  function Indicator(i: nat, total: nat): string {
    " (" + Decimal(i + 1) + "/" + Decimal(total) + ")"
  }

  function Numbered(chunks: seq<string>): seq<string> {
    seq(|chunks|, i requires 0 <= i < |chunks| => chunks[i] + Indicator(i, |chunks|))
  }

  function Split(text: string, limit: int, indicators: bool): seq<string> {
    if text == "" then []
    else if |text| <= limit then [text]
    else
      var chunks := Rendered(Pieces(text, None, limit));
      if indicators && |chunks| > 1 then Numbered(chunks) else chunks
  }

  // ---- Where chunks end ------------------------------------------------------------------------------

  lemma {:induction false} RFindIsLast(s: string, c: char, end: int)
    requires end <= |s|
    ensures var r := RFind(s, c, end);
            && (r >= 0 ==> s[r] == c)
            && (forall i :: 0 <= i < end && r < i ==> s[i] != c)
    decreases end
  {
    if end > 0 && s[end - 1] != c { RFindIsLast(s, c, end - 1); }
  }

  predicate IsBreak(c: char) {
    c == ' ' || c == '\n'
  }

  lemma BoundaryIsNatural(remaining: string, headroom: nat)
    requires headroom >= 1
    ensures var r := Boundary(remaining, headroom);
            r < |remaining| ==>
              || IsBreak(remaining[r])
              || (&& r == headroom
                  && (forall i :: 1 <= i < headroom ==> remaining[i] != ' ')
                  && (forall i :: Max(1, headroom / 2) <= i < headroom ==> remaining[i] != '\n'))
    ensures var r := Boundary(remaining, headroom);
            forall i :: Max(1, headroom / 2) <= i < headroom && i < |remaining| && remaining[i] == '\n' ==>
              i <= r < |remaining| && remaining[r] == '\n'
  {
    var region := Take(remaining, headroom);
    RFindIsLast(region, '\n', |region|);
    RFindIsLast(region, ' ', |region|);
    assert forall i :: 0 <= i < |region| ==> region[i] == remaining[i];
  }

  lemma SpanCutIsNatural(candidate: string, at: nat, headroom: nat)
    requires 1 <= at <= headroom && |candidate| <= at
    ensures var r := BeforeSpan(candidate, at, headroom); r == at || (r < |candidate| && IsBreak(candidate[r]))
  {
    var tick := LastBare(candidate, RFind(candidate, '`', |candidate|));
    if tick > 0 {
      RFindIsLast(candidate, ' ', tick);
      RFindIsLast(candidate, '\n', tick);
    }
  }

  /** A chunk ends at a newline or a space, or else fills the room because the room has no space
      and its second half no newline. */
  lemma CutsAreNatural(remaining: string, headroom: nat)
    requires headroom >= 1
    ensures var r := CutAt(remaining, headroom);
            r < |remaining| ==>
              || IsBreak(remaining[r])
              || (&& r == headroom
                  && (forall i :: 1 <= i < headroom ==> remaining[i] != ' ')
                  && (forall i :: Max(1, headroom / 2) <= i < headroom ==> remaining[i] != '\n'))
  {
    hide Boundary, BeforeSpan, BareTicks;
    var at := Boundary(remaining, headroom);
    BoundaryIsNatural(remaining, headroom);
    SpanCutIsNatural(Take(remaining, at), at, headroom);
  }

  // ---- Only white space is lost ------------------------------------------------------------------------

  /** `text` is the bodies in order, each followed by a run of white space. */
  ghost predicate Woven(text: string, bodies: seq<string>, gaps: seq<string>)
    requires |bodies| == |gaps|
  {
    if bodies == [] then text == ""
    else
      && AllSpace(gaps[0]) && StartsWith(text, bodies[0] + gaps[0])
      && Woven(text[|bodies[0]| + |gaps[0]|..], bodies[1..], gaps[1..])
  }

  function Bodies(ps: seq<Piece>): seq<string> {
    seq(|ps|, i requires 0 <= i < |ps| => ps[i].body)
  }

  lemma WeaveOne(text: string, body: string, gap: string, left: string, bodies: seq<string>, more: seq<string>)
    requires text == body + gap + left && AllSpace(gap)
    requires |bodies| == |more| && Woven(left, bodies, more)
    ensures Woven(text, [body] + bodies, [gap] + more)
  {
    var b, g := [body] + bodies, [gap] + more;
    assert b[1..] == bodies && g[1..] == more && b[0] == body && g[0] == gap;
    assert text[|body| + |gap|..] == left && text[..|body + gap|] == body + gap;
  }

  lemma WeaveStep(text: string, body: string, left: string, bodies: seq<string>, more: seq<string>)
      returns (gaps: seq<string>)
    requires body <= text && left == LStrip(text[|body|..])
    requires |bodies| == |more| && Woven(left, bodies, more)
    ensures |gaps| == |bodies| + 1 && Woven(text, [body] + bodies, gaps)
  {
    hide LStrip, Woven;
    var rest := text[|body|..];
    LStripDropsSpace(rest);
    var gap := rest[..|rest| - |left|];
    gaps := [gap] + more;
    assert text == body + gap + left;
    WeaveOne(text, body, gap, left, bodies, more);
  }

  lemma {:induction false} WeavePieces(remaining: string, carry: Option<string>, limit: int) returns (gaps: seq<string>)
    ensures |gaps| == |Pieces(remaining, carry, limit)|
    ensures Woven(remaining, Bodies(Pieces(remaining, carry, limit)), gaps)
    decreases |remaining|
  {
    hide BodyOf, OpenAfter;
    var ps := Pieces(remaining, carry, limit);
    if remaining == "" {
      gaps := [];
    } else if IsLast(remaining, carry, limit) {
      gaps := [""];
      assert remaining[|remaining|..] == "" && remaining + "" == remaining;
      assert Bodies(ps)[1..] == [] && gaps[1..] == [];
    } else {
      var body, open, left := PiecesStep(remaining, carry, limit);
      var more := WeavePieces(left, open, limit);
      gaps := WeaveStep(remaining, body, left, Bodies(Pieces(left, open, limit)), more);
      assert Bodies(ps) == [body] + Bodies(Pieces(left, open, limit));
    }
  }

  lemma {:induction false} BodiesNotEmpty(remaining: string, carry: Option<string>, limit: int, k: nat)
    requires k < |Pieces(remaining, carry, limit)|
    ensures Pieces(remaining, carry, limit)[k].body != ""
    decreases k
  {
    hide BodyOf, OpenAfter, Pieces, IsLast, Headroom, LStrip;
    if remaining == "" || IsLast(remaining, carry, limit) {
      PiecesEnd(remaining, carry, limit);
    } else {
      var body, open, rest := PiecesStep(remaining, carry, limit);
      if k > 0 { BodiesNotEmpty(rest, open, limit, k - 1); }
    }
  }

  /** A text is its chunk bodies, none of them empty, with nothing but white space between and
      after them. */
  lemma OnlyWhiteSpaceIsLost(text: string, limit: int)
    ensures exists gaps: seq<string> ::
              |gaps| == |Pieces(text, None, limit)| && Woven(text, Bodies(Pieces(text, None, limit)), gaps)
    ensures forall k :: 0 <= k < |Pieces(text, None, limit)| ==> Pieces(text, None, limit)[k].body != ""
  {
    var gaps := WeavePieces(text, None, limit);
    forall k | 0 <= k < |Pieces(text, None, limit)| ensures Pieces(text, None, limit)[k].body != "" {
      BodiesNotEmpty(text, None, limit, k);
    }
  }

  // ---- Fences ---------------------------------------------------------------------------------------------

  function Fences(lines: seq<string>): nat
    decreases |lines|
  {
    if lines == [] then 0 else Fences(lines[..|lines| - 1]) + if IsFence(lines[|lines| - 1]) then 1 else 0
  }

  function FenceLines(s: string): nat {
    Fences(Lines(s))
  }

  lemma {:induction false} FencesAdd(a: seq<string>, b: seq<string>)
    ensures Fences(a + b) == Fences(a) + Fences(b)
    decreases |b|
  {
    if b == [] { assert a + b == a; }
    else {
      assert (a + b)[..|a + b| - 1] == a + b[..|b| - 1];
      FencesAdd(a, b[..|b| - 1]);
    }
  }

  /** A block is open after some lines exactly when their fences, and the one carried in, are odd
      in number. */
  lemma {:induction false} OpenIsOdd(open: Option<string>, lines: seq<string>)
    ensures After(open, lines).Some? <==> ((if open.Some? then 1 else 0) + Fences(lines)) % 2 == 1
    decreases |lines|
  {
    if lines != [] { OpenIsOdd(open, lines[..|lines| - 1]); }
  }

  lemma {:induction false} LinesJoin(a: string, b: string)
    ensures Lines(a + "\n" + b) == Lines(a) + Lines(b)
    decreases |a|
  {
    if a == "" {
      assert (a + "\n" + b)[1..] == b;
    } else {
      assert (a + "\n" + b)[1..] == a[1..] + "\n" + b;
      LinesJoin(a[1..], b);
    }
  }

  lemma {:induction false} OneLine(s: string)
    requires '\n' !in s
    ensures Lines(s) == [s]
    decreases |s|
  {
    if s != "" {
      OneLine(s[1..]);
      assert s[0] in s && [s[0]] + s[1..] == s;
    }
  }

  lemma {:induction false} LinesExtend(s: string, t: string)
    requires '\n' !in t
    ensures var l := Lines(s); Lines(s + t) == l[..|l| - 1] + [l[|l| - 1] + t]
    decreases |s|
  {
    hide Lines;
    LinesHead(s);
    LinesHead(s + t);
    if s == "" { OneLine(t); assert s + t == t; }
    else {
      assert (s + t)[1..] == s[1..] + t && (s + t)[0] == s[0];
      LinesExtend(s[1..], t);
      LastGrows(s[0], Lines(s[1..]), t);
    }
  }

  lemma LinesHead(s: string)
    ensures s == "" ==> Lines(s) == [""]
    ensures s != "" ==> var m := Lines(s[1..]);
                        Lines(s) == if s[0] == '\n' then [""] + m else [[s[0]] + m[0]] + m[1..]
  {}

  /** What a first character does to the lines does not depend on what the last line ends in. */
  lemma LastGrows(c: char, m: seq<string>, t: string)
    requires m != []
    ensures var n := m[..|m| - 1] + [m[|m| - 1] + t];
            var l := if c == '\n' then [""] + m else [[c] + m[0]] + m[1..];
            (if c == '\n' then [""] + n else [[c] + n[0]] + n[1..]) == l[..|l| - 1] + [l[|l| - 1] + t]
  {
    if |m| == 1 { assert [c] + (m[0] + t) == ([c] + m[0]) + t; }
  }

  lemma {:induction false} RStripKeeps(s: string, p: string)
    requires p != "" && !IsSpace(p[|p| - 1]) && StartsWith(s, p)
    ensures StartsWith(RStrip(s), p)
    decreases |s|
  {
    if IsSpace(s[|s| - 1]) {
      assert |s| == |p| ==> s == p;
      RStripKeeps(s[..|s| - 1], p);
    }
  }

  lemma FenceByHead(line: string)
    ensures IsFence(line) <==> StartsWith(LStrip(line), TICKS)
  {
    var l := LStrip(line);
    if StartsWith(l, TICKS) { RStripKeeps(l, TICKS); }
    RStripIsPrefix(l);
  }

  lemma TicksAreAFence(rest: string)
    ensures IsFence(TICKS + rest)
  {
    FenceByHead(TICKS + rest);
  }

  lemma {:induction false} LStripExtend(s: string, t: string)
    ensures LStrip(s + t) == if LStrip(s) == "" then LStrip(t) else LStrip(s) + t
    decreases |s|
  {
    if s == "" { assert s + t == t; }
    else if IsSpace(s[0]) { assert (s + t)[1..] == s[1..] + t; LStripExtend(s[1..], t); }
  }

  /** An indicator neither makes nor breaks a fence. */
  lemma IndicatorKeepsFence(line: string, t: string)
    requires |t| >= 2 && t[0] == ' ' && t[1] == '('
    ensures IsFence(line + t) <==> IsFence(line)
  {
    FenceByHead(line);
    FenceByHead(line + t);
    LStripExtend(line, t);
    var l := LStrip(line);
    if l == "" {
      assert LStrip(t)[0] == t[1..][0] == '(';
    } else if |l| < 3 && |l + t| >= 3 {
      assert (l + t)[..3][|l|] == t[0];
    } else if |l| >= 3 {
      assert (l + t)[..3] == l[..3];
    }
  }

  lemma IndicatorKeepsFenceLines(s: string, i: nat, total: nat)
    ensures FenceLines(s + Indicator(i, total)) == FenceLines(s)
  {
    var t := Indicator(i, total);
    var l := Lines(s);
    LinesExtend(s, t);
    var last := l[|l| - 1];
    IndicatorKeepsFence(last, t);
    FencesAdd(l[..|l| - 1], [last + t]);
    assert (l[..|l| - 1] + [last + t])[..|l| - 1] == l[..|l| - 1];
  }

  /** A carried language is one word of one line. */
  ghost predicate Word(carry: Option<string>) {
    carry.Some? ==> forall c :: c in carry.value ==> !IsSpace(c)
  }

  lemma {:induction false} FirstWordHasNoSpace(s: string)
    ensures forall c :: c in FirstWord(s) ==> !IsSpace(c)
  {
    if s != "" && !IsSpace(s[0]) { FirstWordHasNoSpace(s[1..]); }
  }

  lemma {:induction false} AfterIsWord(open: Option<string>, lines: seq<string>)
    requires Word(open)
    ensures Word(After(open, lines))
    decreases |lines|
  {
    if lines != [] {
      AfterIsWord(open, lines[..|lines| - 1]);
      var l := lines[|lines| - 1];
      if IsFence(l) { FirstWordHasNoSpace(Strip(Strip(l)[3..])); }
    }
  }

  lemma OpenIsWord(open: Option<string>, body: string)
    requires Word(open)
    ensures Word(OpenAfter(open, body))
  {
    AfterIsWord(open, Lines(body));
  }

  lemma PrefixLines(carry: Option<string>, rest: string)
    requires Word(carry)
    ensures FenceLines(Prefix(carry) + rest) == (if carry.Some? then 1 else 0) + FenceLines(rest)
  {
    if carry.Some? {
      var head := TICKS + carry.value;
      assert Prefix(carry) + rest == head + "\n" + rest;
      LinesJoin(head, rest);
      OneLine(head);
      TicksAreAFence(carry.value);
      FencesAdd([head], Lines(rest));
      assert [head][..0] == [];
    } else {
      assert Prefix(carry) + rest == rest;
    }
  }

  lemma CloseLines(body: string)
    ensures FenceLines(body + FENCE_CLOSE) == FenceLines(body) + 1
  {
    assert body + FENCE_CLOSE == body + "\n" + TICKS;
    LinesJoin(body, TICKS);
    OneLine(TICKS);
    TicksAreAFence("");
    assert TICKS + "" == TICKS && [TICKS][..0] == [];
    FencesAdd(Lines(body), [TICKS]);
  }

  lemma RenderedFences(p: Piece)
    requires Word(p.carry)
    ensures FenceLines(Render(p))
         == (if p.carry.Some? then 1 else 0) + FenceLines(p.body) + (if p.closed then 1 else 0)
  {
    var close := if p.closed then FENCE_CLOSE else "";
    assert Render(p) == Prefix(p.carry) + (p.body + close);
    PrefixLines(p.carry, p.body + close);
    if p.closed { CloseLines(p.body); } else { assert p.body + close == p.body; }
  }

  /** A piece whose fences come out even. */
  ghost predicate Balanced(p: Piece) {
    FenceLines(Render(p)) % 2 == 0
  }

  lemma ClosedWhenOpen(carry: Option<string>, body: string, closed: bool)
    requires Word(carry) && closed == OpenAfter(carry, body).Some?
    ensures Balanced(Piece(carry, body, closed))
  {
    hide Render, Fences, After, Lines, Word;
    OpenIsOdd(carry, Lines(body));
    RenderedFences(Piece(carry, body, closed));
  }

  lemma {:induction false} PiecesBalanced(remaining: string, carry: Option<string>, limit: int, k: nat)
    requires Word(carry) && k < |Pieces(remaining, carry, limit)|
    ensures var ps := Pieces(remaining, carry, limit);
            (k < |ps| - 1 || ps[k].carry.Some?) ==> Balanced(ps[k])
    decreases k
  {
    hide BodyOf, OpenAfter, Balanced, Word, LStrip, Headroom, Pieces, IsLast;
    var ps := Pieces(remaining, carry, limit);
    if remaining == "" || IsLast(remaining, carry, limit) {
      PiecesEnd(remaining, carry, limit);
      if carry.Some? { ClosedWhenOpen(carry, remaining, ps[0].closed); }
    } else {
      var body, open, rest := PiecesStep(remaining, carry, limit);
      if k == 0 {
        ClosedWhenOpen(carry, body, open.Some?);
      } else {
        OpenIsWord(carry, body);
        PiecesBalanced(rest, open, limit, k - 1);
      }
    }
  }

  lemma SplitChunk(text: string, limit: int, indicators: bool, k: nat)
    requires |text| > limit && k < |Split(text, limit, indicators)|
    ensures var ps, cs := Pieces(text, None, limit), Split(text, limit, indicators);
            && |cs| == |ps|
            && cs[k] == Render(ps[k]) + if indicators && |ps| > 1 then Indicator(k, |ps|) else ""
  {}

  /** Every chunk but the last, and the last as well when it starts inside a carried block, holds
      an even number of fence lines, numbered or not. */
  lemma FencesAreClosed(text: string, limit: int, indicators: bool, k: nat)
    requires |text| > limit && k < |Split(text, limit, indicators)|
    ensures var ps, cs := Pieces(text, None, limit), Split(text, limit, indicators);
            |cs| == |ps| && (k < |cs| - 1 || ps[k].carry.Some? ==> FenceLines(cs[k]) % 2 == 0)
  {
    var ps := Pieces(text, None, limit);
    SplitChunk(text, limit, indicators, k);
    PiecesBalanced(text, None, limit, k);
    IndicatorKeepsFenceLines(Render(ps[k]), k, |ps|);
    assert Render(ps[k]) + "" == Render(ps[k]);
  }

  /** Line k is the last fence line. */
  ghost predicate IsLastFence(lines: seq<string>, k: int) {
    0 <= k < |lines| && IsFence(lines[k]) && forall i :: k < i < |lines| ==> !IsFence(lines[i])
  }

  /** The language of an open block is that of the last fence line, or the carried one if there is
      no fence line. */
  lemma {:induction false} OpenLanguageIsLastFence(open: Option<string>, lines: seq<string>)
    requires After(open, lines).Some?
    ensures var lang := After(open, lines);
            || (lang == open && forall l :: l in lines ==> !IsFence(l))
            || exists k :: IsLastFence(lines, k) && lang.value == Info(lines[k])
    decreases |lines|
  {
    hide Info, IsFence;
    if lines != [] {
      var n := |lines| - 1;
      var front := lines[..n];
      assert lines == front + [lines[n]];
      if IsFence(lines[n]) {
        assert IsLastFence(lines, n);
      } else {
        OpenLanguageIsLastFence(open, front);
        if k :| IsLastFence(front, k) && After(open, front).value == Info(front[k]) {
          assert lines[k] == front[k] && IsLastFence(lines, k);
        }
      }
    }
  }

  /** A block cut by a chunk's end is closed there and reopened, with its language, by the next. */
  lemma {:induction false} BlocksCarryOver(remaining: string, carry: Option<string>, limit: int, k: nat)
    requires k + 1 < |Pieces(remaining, carry, limit)|
    ensures var ps := Pieces(remaining, carry, limit);
            && ps[0].carry == carry
            && ps[k + 1].carry == OpenAfter(ps[k].carry, ps[k].body)
            && (ps[k].closed <==> ps[k + 1].carry.Some?)
    decreases k
  {
    hide BodyOf, OpenAfter, LStrip, Pieces, IsLast, Headroom;
    var ps := Pieces(remaining, carry, limit);
    if remaining == "" || IsLast(remaining, carry, limit) { PiecesEnd(remaining, carry, limit); }
    var body, open, rest := PiecesStep(remaining, carry, limit);
    var more := Pieces(rest, open, limit);
    assert ps == [Piece(carry, body, open.Some?)] + more;
    if k == 0 {
      FirstCarry(rest, open, limit);
    } else {
      BlocksCarryOver(rest, open, limit, k - 1);
      assert ps[k] == more[k - 1] && ps[k + 1] == more[k];
    }
  }

  lemma FirstCarry(remaining: string, carry: Option<string>, limit: int)
    ensures var ps := Pieces(remaining, carry, limit); ps != [] ==> ps[0].carry == carry
  {
    hide BodyOf, OpenAfter;
  }

  // ---- Sizes --------------------------------------------------------------------------------------------

  lemma RenderSize(p: Piece)
    ensures |Render(p)| == |Prefix(p.carry)| + |p.body| + if p.closed then 4 else 0
  {}

  function Letters(n: nat): string {
    seq(n, _ => 'a')
  }

  lemma {:induction false} RFindAbsent(s: string, c: char, end: int)
    requires end <= |s| && c !in s
    ensures RFind(s, c, end) == -1
    decreases end
  {
    if end > 0 { RFindAbsent(s, c, end - 1); }
  }

  lemma {:induction false} NoTicks(s: string)
    requires '`' !in s
    ensures BareTicks(s) == 0
    decreases |s|
  {
    if s != "" { NoTicks(s[..|s| - 1]); }
  }

  lemma WordBoundary(n: nat, h: nat)
    requires n > h >= 1
    ensures CutAt(Letters(n), h) == h && Take(Letters(n), h) == Letters(h)
  {
    hide LastBare;
    var region := Take(Letters(n), h);
    assert region == Letters(h);
    RFindAbsent(region, '\n', |region|);
    RFindAbsent(region, ' ', |region|);
    NoTicks(region);
  }

  /** A word longer than the room is cut at the end of the room. */
  lemma WordIsCutAtHeadroom(n: nat, carry: Option<string>, limit: int)
    requires n > Headroom(limit, carry)
    ensures BodyOf(Letters(n), carry, limit) == Letters(Headroom(limit, carry))
    ensures !IsLast(Letters(n), carry, limit)
            ==> Pieces(Letters(n), carry, limit)[0].body == Letters(Headroom(limit, carry))
  {
    WordBoundary(n, Headroom(limit, carry));
    if !IsLast(Letters(n), carry, limit) { FirstBody(Letters(n), carry, limit); }
  }

  lemma FirstBody(remaining: string, carry: Option<string>, limit: int)
    requires remaining != "" && !IsLast(remaining, carry, limit)
    ensures Pieces(remaining, carry, limit) != []
    ensures Pieces(remaining, carry, limit)[0].body == BodyOf(remaining, carry, limit)
  {}

  /** A word after three backticks, with blanks of the same line between. */
  ghost predicate InfoWord(s: string, before: string, blank: string, word: string, after: string) {
    && s == before + TICKS + blank + word + after
    && AllSpace(blank) && '\n' !in blank
    && (forall c :: c in word ==> !IsSpace(c))
  }

  /** Every word that could be taken for a fence's language has at most m characters. */
  ghost predicate InfoWordsFit(s: string, m: int) {
    forall before, blank, word, after :: InfoWord(s, before, blank, word, after) ==> |word| <= m
  }

  lemma PartFits(s: string, head: string, part: string, tail: string, m: int)
    requires s == head + part + tail && InfoWordsFit(s, m)
    ensures InfoWordsFit(part, m)
  {
    forall before, blank, word, after | InfoWord(part, before, blank, word, after) ensures |word| <= m {
      assert head + (before + TICKS + blank + word + after) + tail
             == (head + before) + TICKS + blank + word + (after + tail);
      assert InfoWord(s, head + before, blank, word, after + tail);
    }
  }

  lemma LinesCons(s: string, k: nat)
    requires s != "" && k < |Lines(s)|
    ensures k == 0 && s[0] == '\n' ==> Lines(s)[k] == ""
    ensures k == 0 && s[0] != '\n' ==> Lines(s)[k] == [s[0]] + Lines(s[1..])[0]
    ensures k > 0 ==> var i := if s[0] == '\n' then k - 1 else k;
                      i < |Lines(s[1..])| && Lines(s)[k] == Lines(s[1..])[i]
  {}

  lemma {:induction false} LineInside(s: string, k: nat) returns (head: string, tail: string)
    requires k < |Lines(s)|
    ensures s == head + Lines(s)[k] + tail && '\n' !in Lines(s)[k]
    ensures k == 0 ==> head == ""
    decreases |s|
  {
    head, tail := "", s;
    if s != "" {
      hide Lines;
      LinesCons(s, k);
      assert s == [s[0]] + s[1..];
      if k == 0 && s[0] != '\n' {
        head, tail := LineInside(s[1..], 0);
        assert s == Lines(s)[0] + tail;
      } else if k > 0 {
        head, tail := LineInside(s[1..], if s[0] == '\n' then k - 1 else k);
        head := [s[0]] + head;
      }
    }
  }

  lemma StripInside(s: string) returns (head: string, tail: string)
    ensures s == head + Strip(s) + tail && AllSpace(head)
  {
    var l := LStrip(s);
    LStripDropsSpace(s);
    RStripIsPrefix(l);
    head, tail := s[..|s| - |l|], l[|Strip(s)|..];
  }

  lemma {:induction false} FirstWordIsPrefix(s: string)
    ensures FirstWord(s) <= s
    decreases |s|
  {
    if s != "" && !IsSpace(s[0]) { FirstWordIsPrefix(s[1..]); }
  }

  lemma InfoFits(line: string, m: int)
    requires IsFence(line) && '\n' !in line && InfoWordsFit(line, m)
    ensures |Info(line)| <= m
  {
    hide Strip, FirstWord;
    var head, tail := StripInside(line);
    var rest := Strip(line)[3..];
    var blank, tail2 := StripInside(rest);
    var tag := Strip(rest);
    var word := FirstWord(tag);
    FirstWordIsPrefix(tag);
    FirstWordHasNoSpace(tag);
    var after := tag[|word|..] + tail2 + tail;
    assert line == head + TICKS + blank + word + after;
    assert forall i :: 0 <= i < |blank| ==> blank[i] == line[|head| + 3 + i];
    assert InfoWord(line, head, blank, word, after);
  }

  ghost predicate CarryFits(carry: Option<string>, m: int) {
    carry.Some? ==> |carry.value| <= m
  }

  lemma {:induction false} AfterFits(open: Option<string>, body: string, n: nat, m: int)
    requires CarryFits(open, m) && InfoWordsFit(body, m) && n <= |Lines(body)|
    ensures CarryFits(After(open, Lines(body)[..n]), m)
    decreases n
  {
    if n > 0 {
      AfterFits(open, body, n - 1, m);
      var l := Lines(body)[n - 1];
      assert Lines(body)[..n][..n - 1] == Lines(body)[..n - 1];
      if IsFence(l) {
        var head, tail := LineInside(body, n - 1);
        PartFits(body, head, l, tail, m);
        InfoFits(l, m);
      }
    }
  }

  /** The parts a round makes of what remains are as well-behaved as the whole. */
  lemma RoundKeepsFit(remaining: string, carry: Option<string>, limit: int, m: int,
                      body: string, open: Option<string>, rest: string)
    requires CarryFits(carry, m) && InfoWordsFit(remaining, m)
    requires body <= remaining && open == OpenAfter(carry, body) && rest == LStrip(remaining[|body|..])
    ensures CarryFits(open, m) && InfoWordsFit(rest, m)
  {
    hide InfoWordsFit, CarryFits, LStrip, Lines, After;
    var tail := remaining[|body|..];
    PartFits(remaining, "", body, tail, m);
    AfterFits(carry, body, |Lines(body)|, m);
    assert Lines(body)[..|Lines(body)|] == Lines(body);
    LStripDropsSpace(tail);
    var gap := tail[..|tail| - |rest|];
    assert remaining == (body + gap) + rest + "";
    PartFits(remaining, body + gap, rest, "", m);
  }

  lemma PrefixSize(carry: Option<string>)
    ensures |Prefix(carry)| == if carry.Some? then |carry.value| + 4 else 0
  {}

  lemma LastSize(remaining: string, carry: Option<string>, limit: int)
    requires IsLast(remaining, carry, limit)
    ensures |Prefix(carry)| + |remaining| <= limit - 10
  {}

  lemma {:induction false} PiecesFit(remaining: string, carry: Option<string>, limit: int, k: nat)
    requires limit >= 15 && CarryFits(carry, limit - 19) && InfoWordsFit(remaining, limit - 19)
    requires k < |Pieces(remaining, carry, limit)|
    ensures var ps := Pieces(remaining, carry, limit);
            |Render(ps[k])| <= if k < |ps| - 1 then limit - 10 else limit - 6
    decreases k
  {
    hide BodyOf, OpenAfter, Render, InfoWordsFit, IsLast, Prefix, Pieces, LStrip;
    var ps := Pieces(remaining, carry, limit);
    RenderSize(ps[k]);
    PrefixSize(carry);
    if remaining == "" || IsLast(remaining, carry, limit) {
      PiecesEnd(remaining, carry, limit);
      LastSize(remaining, carry, limit);
    } else {
      var body, open, rest := PiecesStep(remaining, carry, limit);
      var more := Pieces(rest, open, limit);
      if k == 0 {
        assert ps[0] == Piece(carry, body, open.Some?);
      } else {
        RoundKeepsFit(remaining, carry, limit, limit - 19, body, open, rest);
        PiecesFit(rest, open, limit, k - 1);
        assert ps[k] == more[k - 1];
      }
    }
  }

  lemma {:induction false} DecimalGrows(i: nat, n: nat)
    requires i <= n
    ensures |Decimal(i)| <= |Decimal(n)|
    decreases n
  {
    if n >= 10 && i >= 10 { DecimalGrows(i / 10, n / 10); }
  }

  lemma IndicatorSize(i: nat, total: nat)
    requires i < total
    ensures 4 + 1 + |Decimal(total)| <= |Indicator(i, total)| <= 4 + 2 * |Decimal(total)|
    ensures total < 10 ==> |Indicator(i, total)| == 6
  {
    DecimalGrows(i + 1, total);
  }

  /** When every language word leaves room for its fences, non-final chunks stay within the limit
      less the reserve before numbering, and with n chunks all stay within limit + 2*digits(n) - 2
      after it; with fewer than ten chunks, within the limit. */
  lemma ChunksFit(text: string, limit: int, indicators: bool, k: nat)
    requires limit >= 15 && InfoWordsFit(text, limit - 19)
    requires k < |Split(text, limit, indicators)|
    ensures var cs := Split(text, limit, indicators);
            && |cs[k]| <= limit + 2 * |Decimal(|cs|)| - 2
            && (k < |cs| - 1 ==> |cs[k]| <= limit + 2 * |Decimal(|cs|)| - 6)
            && (|cs| < 10 ==> |cs[k]| <= limit)
            && (!indicators && |text| > limit ==> |cs[k]| <= if k < |cs| - 1 then limit - 10 else limit - 6)
  {
    if |text| > limit {
      var ps := Pieces(text, None, limit);
      SplitChunk(text, limit, indicators, k);
      PiecesFit(text, None, limit, k);
      IndicatorSize(k, |ps|);
    }
  }

  // ---- Plain text --------------------------------------------------------------------------------------

  lemma BacktickIn(s: string, before: string, after: string)
    ensures s == before + TICKS + after ==> '`' in s
  {
    if s == before + TICKS + after { assert s[|before|] == '`'; }
  }

  lemma PlainHasNoInfo(s: string, m: int)
    requires '`' !in s
    ensures InfoWordsFit(s, m)
  {
    forall before, blank, word, after ensures !InfoWord(s, before, blank, word, after) {
      assert before + TICKS + blank + word + after == before + TICKS + (blank + word + after);
      BacktickIn(s, before, blank + word + after);
    }
  }

  lemma PlainRoom(limit: int)
    requires limit >= 11
    ensures Headroom(limit, None) <= limit - 6
  {}

  lemma {:induction false} PlainPiecesFit(remaining: string, limit: int, k: nat)
    requires limit >= 11 && InfoWordsFit(remaining, -1) && k < |Pieces(remaining, None, limit)|
    ensures |Render(Pieces(remaining, None, limit)[k])| <= limit - 6
    decreases k
  {
    hide BodyOf, OpenAfter, Render, InfoWordsFit, IsLast, Prefix, Headroom;
    var ps := Pieces(remaining, None, limit);
    RenderSize(ps[k]);
    PrefixSize(None);
    PlainRoom(limit);
    if IsLast(remaining, None, limit) {
      LastSize(remaining, None, limit);
    } else {
      var body, open, rest := PiecesStep(remaining, None, limit);
      var more := Pieces(rest, open, limit);
      RoundKeepsFit(remaining, None, limit, -1, body, open, rest);
      if k == 0 {
        assert ps[0] == Piece(None, body, false);
      } else {
        PlainPiecesFit(rest, limit, k - 1);
        assert ps[k] == more[k - 1];
      }
    }
  }

  lemma {:induction false} PiecesAtMost(remaining: string, carry: Option<string>, limit: int)
    ensures |Pieces(remaining, carry, limit)| <= |remaining|
    decreases |remaining|
  {
    if remaining != "" && !IsLast(remaining, carry, limit) {
      var body, open, rest := PiecesStep(remaining, carry, limit);
      PiecesAtMost(rest, open, limit);
    }
  }

  /** All chunks of a text stay within the limit when there are fewer than ten. */
  ghost predicate WithinLimit(text: string, limit: int) {
    var cs := Split(text, limit, true);
    |cs| < 10 ==> forall k :: 0 <= k < |cs| ==> |cs[k]| <= limit
  }

  lemma SomePieces(remaining: string, carry: Option<string>, limit: int)
    requires remaining != ""
    ensures Pieces(remaining, carry, limit) != []
  {
    hide BodyOf, OpenAfter, IsLast;
  }

  lemma LongWordOverruns(limit: int) returns (text: string)
    requires limit <= 10
    ensures '`' !in text && !WithinLimit(text, limit)
  {
    hide BodyOf, OpenAfter, Pieces, Render;
    var n := Max(limit, 1) + 1;
    var h := Headroom(limit, None);
    text := Letters(n);
    WordIsCutAtHeadroom(n, None, limit);
    var body, open, rest := PiecesStep(text, None, limit);
    assert body == Letters(h);
    assert text[|body|..] == Letters(n - h) && rest == Letters(n - h);
    PiecesAtMost(rest, open, limit);
    var ps, more := Pieces(text, None, limit), Pieces(rest, open, limit);
    SomePieces(rest, open, limit);
    SplitChunk(text, limit, true, 0);
    RenderSize(ps[0]);
    IndicatorSize(0, |ps|);
  }

  /** Text without backticks that makes fewer than ten chunks stays within the limit, whatever it
      says, if and only if the limit is at least 11. */
  lemma PlainTextFitsIff(limit: int)
    ensures (forall text: string :: '`' !in text ==> WithinLimit(text, limit)) <==> limit >= 11
  {
    if limit >= 11 {
      forall text: string | '`' !in text ensures WithinLimit(text, limit) {
        PlainHasNoInfo(text, -1);
        var cs := Split(text, limit, true);
        forall k | 0 <= k < |cs| && |cs| < 10 ensures |cs[k]| <= limit {
          if |text| > limit {
            SplitChunk(text, limit, true, k);
            PlainPiecesFit(text, limit, k);
            IndicatorSize(k, |cs|);
          }
        }
      }
    } else {
      var text := LongWordOverruns(limit);
    }
  }

  // ---- The loops in place ----------------------------------------------------------------------------

  lemma Regroup(a: seq<Piece>, b: seq<Piece>, c: seq<Piece>)
    ensures (a + b) + c == a + (b + c)
  {}

  /** The position of a cut, found with the program's own searches. */
  method FindCut(remaining: string, headroom: nat) returns (splitAt: nat)
    requires headroom >= 1
    ensures splitAt == CutAt(remaining, headroom)
  {
    var region := Take(remaining, headroom);
    var found := RFind(region, '\n', |region|);
    if found < headroom / 2 { found := RFind(region, ' ', |region|); }
    if found < 1 { found := Max(1, headroom); }
    splitAt := found;
    var candidate := Take(remaining, splitAt);
    if BareTicks(candidate) % 2 == 1 {
      var lastTick := RFind(candidate, '`', |candidate|);
      ghost var first := lastTick;
      while lastTick > 0 && candidate[lastTick - 1] == '\\'
        invariant lastTick < |candidate| && LastBare(candidate, first) == LastBare(candidate, lastTick)
        decreases lastTick
      {
        lastTick := RFind(candidate, '`', lastTick);
      }
      if lastTick > 0 {
        var safe := Max(RFind(candidate, ' ', lastTick), RFind(candidate, '\n', lastTick));
        if safe > headroom / 4 { splitAt := safe; }
      }
    }
  }

  /** The line loop: whether a block is open after a body, and its language. */
  method Scan(carry: Option<string>, body: string) returns (inCode: bool, lang: string)
    ensures OpenAfter(carry, body) == if inCode then Some(lang) else None
  {
    inCode := carry.Some?;
    lang := if carry.Some? then carry.value else "";
    var lines := Lines(body);
    for i := 0 to |lines|
      invariant After(carry, lines[..i]) == if inCode then Some(lang) else None
    {
      assert lines[..i + 1][..i] == lines[..i];
      if IsFence(lines[i]) {
        if inCode { inCode, lang := false, ""; } else { inCode, lang := true, Info(lines[i]); }
      }
    }
    assert lines[..|lines|] == lines;
  }

  /** One round of the loop that is not the last. */
  method Round(remaining: string, carry: Option<string>, limit: int)
    returns (chunk: string, open: Option<string>, rest: string, ghost piece: Piece)
    requires remaining != "" && !IsLast(remaining, carry, limit)
    ensures chunk == Render(piece) && |rest| < |remaining|
    ensures Pieces(remaining, carry, limit) == [piece] + Pieces(rest, open, limit)
  {
    var splitAt := FindCut(remaining, Headroom(limit, carry));
    var body := Take(remaining, splitAt);
    chunk := Prefix(carry) + body;
    var inCode, lang := Scan(carry, body);
    if inCode { chunk := chunk + FENCE_CLOSE; }
    open := if inCode then Some(lang) else None;
    rest := LStrip(remaining[|body|..]);
    piece := Piece(carry, body, inCode);
    FirstBody(remaining, carry, limit);
    ghost var b, o, r := PiecesStep(remaining, carry, limit);
  }

  /** The last round. */
  method LastRound(remaining: string, carry: Option<string>, limit: int) returns (chunk: string, ghost piece: Piece)
    requires remaining != "" && IsLast(remaining, carry, limit)
    ensures chunk == Render(piece) && Pieces(remaining, carry, limit) == [piece]
  {
    chunk := Prefix(carry) + remaining;
    ghost var closed := false;
    if carry.Some? {
      var inCode, _ := Scan(carry, remaining);
      if inCode { chunk := chunk + FENCE_CLOSE; closed := true; }
    }
    piece := Piece(carry, remaining, closed);
  }

  method SplitChatContent(text: string, limit: int, indicators: bool) returns (chunks: seq<string>)
    ensures chunks == Split(text, limit, indicators)
  {
    hide BodyOf, OpenAfter, Headroom, LStrip;
    if text == "" { return []; }
    if |text| <= limit { return [text]; }
    chunks := [];
    var remaining, carry: Option<string> := text, None;
    ghost var done: seq<Piece> := [];
    while remaining != ""
      invariant Pieces(text, None, limit) == done + Pieces(remaining, carry, limit)
      invariant chunks == Rendered(done)
      decreases |remaining|
    {
      if IsLast(remaining, carry, limit) {
        var final;
        ghost var last;
        final, last := LastRound(remaining, carry, limit);
        chunks := chunks + [final];
        done := done + [last];
        remaining := "";
        break;
      }
      var chunk;
      ghost var piece;
      ghost var before, left, open := done, remaining, carry;
      chunk, carry, remaining, piece := Round(remaining, carry, limit);
      Regroup(before, [piece], Pieces(remaining, carry, limit));
      chunks := chunks + [chunk];
      done := done + [piece];
    }
    assert done == Pieces(text, None, limit);
    if indicators && |chunks| > 1 { chunks := Numbered(chunks); }
  }
}
