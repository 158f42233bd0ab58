/** What one chunk looks like and where exactly it ends (src/agent_augury/channels/chunk.py:24-108). */
module ChunkLaws {
  import opened Tables
  import opened PyText
  import opened Chunk

  /** An empty text makes no chunk and a short one is left alone. Of a longer one each chunk is its part
      of the text, after the fence of the block it reopens, if any, and before the fence that closes
      its block, if any; and where there are several and they are numbered, " (k/n)" ends it. */
  lemma SplitLaw(text: string, limit: int, indicators: bool, k: nat)
    requires k < |Split(text, limit, indicators)|
    ensures text != "" && (|text| <= limit ==> Split(text, limit, indicators) == [text])
    ensures |text| > limit ==>
              var ps, cs := Pieces(text, None, limit), Split(text, limit, indicators);
              && |cs| == |ps|
              && cs[k] == (if ps[k].carry.Some? then "```" + ps[k].carry.value + "\n" else "") + ps[k].body
                          + (if ps[k].closed then "\n```" else "")
                          + (if indicators && |ps| > 1 then " (" + Decimal(k + 1) + "/" + Decimal(|ps|) + ")" else "")
  {
    if |text| > limit { SplitChunk(text, limit, indicators, k); }
  }

  lemma NothingToSplit(text: string, limit: int, indicators: bool)
    ensures Split(text, limit, indicators) == [] ==> text == ""
    ensures text == "" ==> Split(text, limit, indicators) == []
  {
    if text != "" && |text| > limit { SomePieces(text, None, limit); }
  }

  // ---- Lines and fences ------------------------------------------------------------------------------------

  function Glued(lines: seq<string>): string {
    if lines == [] then "" else if |lines| == 1 then lines[0] else lines[0] + "\n" + Glued(lines[1..])
  }

  /** The lines of a text hold no line end, and joined by line ends they are the text. */
  lemma {:induction false} LinesLaw(s: string)
    ensures Glued(Lines(s)) == s && forall i :: 0 <= i < |Lines(s)| ==> '\n' !in Lines(s)[i]
    decreases |s|
  {
    hide Lines;
    LinesHead(s);
    if s != "" {
      var m, l := Lines(s[1..]), Lines(s);
      LinesLaw(s[1..]);
      assert s == [s[0]] + s[1..];
      if s[0] == '\n' {
        assert l[1..] == m && Glued(l) == "" + "\n" + Glued(m);
        assert forall i :: 0 < i < |l| ==> l[i] == m[i - 1];
      } else {
        assert l[1..] == m[1..] && l[0] == [s[0]] + m[0];
        assert |m| > 1 ==> Glued(m) == m[0] + "\n" + Glued(m[1..]);
        assert forall i :: 0 < i < |l| ==> l[i] == m[i];
      }
    }
  }

  /** A line is a fence exactly when three backticks come first, white space aside. */
  lemma FenceLaw(line: string) returns (lead: nat)
    ensures lead <= |line| && AllSpace(line[..lead]) && (lead < |line| ==> !IsSpace(line[lead]))
    ensures IsFence(line) <==> "```" <= line[lead..]
  {
    LStripDropsSpace(line);
    FenceByHead(line);
    lead := |line| - |LStrip(line)|;
    assert line[lead..] == LStrip(line);
  }

  /** Stripping takes white space off both ends, and all of it. */
  lemma StripIs(s: string) returns (head: string, tail: string)
    ensures s == head + Strip(s) + tail && AllSpace(head) && AllSpace(tail)
    ensures Strip(s) != "" ==> !IsSpace(Strip(s)[0])
  {
    var l := LStrip(s);
    LStripDropsSpace(s);
    RStripIsPrefix(l);
    RStripDropsSpace(l);
    head, tail := s[..|s| - |l|], l[|Strip(s)|..];
  }

  lemma {:induction false} FirstWordLaw(s: string) returns (rest: string)
    requires s != "" ==> !IsSpace(s[0])
    ensures s == FirstWord(s) + rest && (forall c :: c in FirstWord(s) ==> !IsSpace(c))
    ensures (rest == "" || IsSpace(rest[0])) && (FirstWord(s) == "" ==> s == "")
  {
    FirstWordIsPrefix(s);
    FirstWordHasNoSpace(s);
    FirstWordEnds(s);
    rest := s[|FirstWord(s)|..];
  }

  lemma {:induction false} FirstWordEnds(s: string)
    ensures |FirstWord(s)| < |s| ==> IsSpace(s[|FirstWord(s)|])
    ensures s != "" && !IsSpace(s[0]) ==> FirstWord(s) != ""
    decreases |s|
  {
    if s != "" && !IsSpace(s[0]) { FirstWordEnds(s[1..]); }
  }

  /** The language of a fence is its first word: what follows the backticks up to the next white space,
      white space between aside. */
  lemma InfoLaw(line: string) returns (lead: string, blank: string, rest: string)
    requires IsFence(line)
    ensures line == lead + "```" + blank + Info(line) + rest && AllSpace(lead) && AllSpace(blank)
    ensures (forall c :: c in Info(line) ==> !IsSpace(c)) && (rest == "" || IsSpace(rest[0]))
    ensures Info(line) == "" ==> AllSpace(rest)
  {
    hide Strip, FirstWord, IsSpace;
    var tail, tail2, more;
    lead, tail := StripIs(line);
    var behind := Strip(line)[3..];
    blank, tail2 := StripIs(behind);
    more := FirstWordLaw(Strip(behind));
    rest := more + tail2 + tail;
    FenceParts(line, lead, behind, tail, blank, Info(line), more, tail2, rest);
  }

  lemma FenceParts(line: string, lead: string, behind: string, tail: string, blank: string, word: string, more: string,
                   tail2: string, rest: string)
    requires IsFence(line) && behind == Strip(line)[3..] && line == lead + Strip(line) + tail
    requires behind == blank + (word + more) + tail2 && rest == more + tail2 + tail
    requires AllSpace(tail) && AllSpace(tail2) && (more == "" || IsSpace(more[0])) && (word == "" ==> more == "")
    ensures line == lead + "```" + blank + word + rest && (rest == "" || IsSpace(rest[0]))
    ensures word == "" ==> AllSpace(rest)
  {
    hide Strip, IsSpace;
    assert Strip(line) == "```" + behind;
  }

  // ---- Inline code ---------------------------------------------------------------------------------------

  /** A backtick that no backslash precedes. */
  ghost predicate IsTick(s: string, i: int) {
    0 <= i < |s| && s[i] == '`' && (i > 0 ==> s[i - 1] != '\\')
  }

  ghost function TicksIn(s: string): set<int> {
    set i | 0 <= i < |s| && IsTick(s, i)
  }

  lemma {:induction false} BareTicksCount(s: string)
    ensures BareTicks(s) == |TicksIn(s)|
    decreases |s|
  {
    if s != "" {
      var front, n := s[..|s| - 1], |s| - 1;
      BareTicksCount(front);
      assert forall i :: 0 <= i < n ==> IsTick(s, i) == IsTick(front, i);
      assert TicksIn(s) == TicksIn(front) + if IsTick(s, n) then {n} else {};
    } else {
      assert TicksIn(s) == {};
    }
  }

  lemma {:induction false} LastBareIs(s: string, at: int)
    requires at < |s| && (at >= 0 ==> s[at] == '`') && forall i :: at < i < |s| ==> !IsTick(s, i)
    ensures var r := LastBare(s, at); r >= 0 ==> IsTick(s, r)
    ensures forall i :: LastBare(s, at) < i < |s| ==> !IsTick(s, i)
    decreases at
  {
    if at > 0 && s[at - 1] == '\\' {
      RFindIsLast(s, '`', at);
      LastBareIs(s, RFind(s, '`', at));
    }
  }

  /** Where a chunk ends: at the natural boundary, unless that would cut an inline code span, with an
      odd number of backticks before it. It then ends at the last break before the span's backtick,
      if that lies beyond the first quarter of the room. */
  lemma CutLaw(remaining: string, headroom: nat) returns (at: nat, tick: int, safe: int)
    requires headroom >= 1
    ensures at == Boundary(remaining, headroom)
    ensures var candidate := Take(remaining, at);
            && (tick >= 0 ==> IsTick(candidate, tick)) && -1 <= tick < |candidate|
            && (forall i :: tick < i < |candidate| ==> !IsTick(candidate, i))
            && -1 <= safe && (safe >= 0 ==> safe < tick && IsBreak(candidate[safe]))
            && (forall i :: safe < i < tick ==> !IsBreak(candidate[i]))
            && CutAt(remaining, headroom)
               == if |TicksIn(candidate)| % 2 == 1 && tick > 0 && safe > headroom / 4 then safe else at
  {
    at := Boundary(remaining, headroom);
    hide Boundary, BareTicks;
    var candidate := Take(remaining, at);
    BareTicksCount(candidate);
    RFindIsLast(candidate, '`', |candidate|);
    LastBareIs(candidate, RFind(candidate, '`', |candidate|));
    LastBareBound(candidate, RFind(candidate, '`', |candidate|));
    tick, safe := LastBare(candidate, RFind(candidate, '`', |candidate|)), -1;
    if tick > 0 {
      safe := Max(RFind(candidate, ' ', tick), RFind(candidate, '\n', tick));
      RFindIsLast(candidate, ' ', tick);
      RFindIsLast(candidate, '\n', tick);
    }
  }

  lemma {:induction false} LastBareBound(s: string, at: int)
    requires -1 <= at < |s|
    ensures -1 <= LastBare(s, at) < |s|
    decreases at
  {
    if at > 0 && s[at - 1] == '\\' { LastBareBound(s, RFind(s, '`', at)); }
  }

  /** The natural boundary: the last newline of the room if it lies in the second half, else the last
      space, unless there is none behind the first character; and else the end of the room. */
  lemma BoundaryLaw(remaining: string, headroom: nat) returns (newline: int, space: int)
    requires headroom >= 1
    ensures var region := Take(remaining, headroom);
            && -1 <= newline < |region| && (newline >= 0 ==> region[newline] == '\n')
            && (forall i :: newline < i < |region| ==> region[i] != '\n')
            && -1 <= space < |region| && (space >= 0 ==> region[space] == ' ')
            && (forall i :: space < i < |region| ==> region[i] != ' ')
            && Boundary(remaining, headroom)
               == (if newline >= headroom / 2 && newline >= 1 then newline
                   else if newline < headroom / 2 && space >= 1 then space else headroom)
  {
    var region := Take(remaining, headroom);
    newline, space := RFind(region, '\n', |region|), RFind(region, ' ', |region|);
    RFindIsLast(region, '\n', |region|);
    RFindIsLast(region, ' ', |region|);
  }
}
