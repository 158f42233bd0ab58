/** For which texts `split_chat_content` keeps its promise of at most `limit` characters a chunk
    (src/agent_augury/channels/chunk.py:24-108). */
module ChunkLimits {
  import opened Tables
  import opened PyText
  import opened Chunk

  lemma FewerWordsFit(s: string, m: int, m': int)
    requires InfoWordsFit(s, m) && m <= m'
    ensures InfoWordsFit(s, m')
  {}

  // ---- Texts that fit ---------------------------------------------------------------------------------

  /** Text without any fence language, not even an empty one, behaves like plain text. */
  lemma NoInfoFits(text: string, limit: int)
    requires limit >= 11 && InfoWordsFit(text, -1)
    ensures WithinLimit(text, limit)
  {
    var cs := Split(text, limit, true);
    forall k | 0 <= k < |cs| && |cs| < 10 ensures |cs[k]| <= limit {
      if |text| > limit {
        SplitChunk(text, limit, true, k);
        PlainPiecesFit(text, limit, k);
        IndicatorSize(k, |cs|);
      }
    }
  }

  lemma InfoFitsLimit(text: string, limit: int, m: int)
    requires limit >= 15 && m <= limit - 19 && InfoWordsFit(text, m)
    ensures WithinLimit(text, limit)
  {
    FewerWordsFit(text, m, limit - 19);
    var cs := Split(text, limit, true);
    forall k | 0 <= k < |cs| && |cs| < 10 ensures |cs[k]| <= limit { ChunksFit(text, limit, true, k); }
  }

  /** Two characters are no fence. */
  lemma {:induction false} ShortOpensNothing(body: string, n: nat)
    requires |body| <= 2 && n <= |Lines(body)|
    ensures After(None, Lines(body)[..n]) == None
    decreases n
  {
    hide Info, Lines;
    if n > 0 {
      ShortOpensNothing(body, n - 1);
      assert Lines(body)[..n][..n - 1] == Lines(body)[..n - 1];
      var head, tail := LineInside(body, n - 1);
      assert !IsFence(Lines(body)[n - 1]);
    }
  }

  /** With a limit of 15 or 16 no chunk but the last has room for three backticks. */
  lemma {:induction false} TinyPiecesFit(remaining: string, limit: int, k: nat)
    requires 15 <= limit <= 16 && k < |Pieces(remaining, None, limit)|
    ensures |Render(Pieces(remaining, None, limit)[k])| <= limit - 6
    decreases k
  {
    hide BodyOf, OpenAfter, Render, IsLast, Prefix, Headroom;
    var ps := Pieces(remaining, None, limit);
    RenderSize(ps[k]);
    PrefixSize(None);
    TinyRoom(limit);
    if IsLast(remaining, None, limit) {
      LastSize(remaining, None, limit);
    } else {
      var body, open, rest := PiecesStep(remaining, None, limit);
      var more := Pieces(rest, open, limit);
      TinyOpensNothing(body);
      if k == 0 {
        assert ps[0] == Piece(None, body, false);
      } else {
        TinyPiecesFit(rest, limit, k - 1);
        assert ps[k] == more[k - 1];
      }
    }
  }

  lemma TinyOpensNothing(body: string)
    requires |body| <= 2
    ensures OpenAfter(None, body) == None
  {
    ShortOpensNothing(body, |Lines(body)|);
    assert Lines(body)[..|Lines(body)|] == Lines(body);
  }

  lemma TinyRoom(limit: int)
    requires 15 <= limit <= 16
    ensures Headroom(limit, None) <= 2
  {}

  lemma TinyLimitFits(text: string, limit: int)
    requires 15 <= limit <= 16
    ensures WithinLimit(text, limit)
  {
    var cs := Split(text, limit, true);
    forall k | 0 <= k < |cs| && |cs| < 10 ensures |cs[k]| <= limit {
      if |text| > limit {
        SplitChunk(text, limit, true, k);
        TinyPiecesFit(text, limit, k);
        IndicatorSize(k, |cs|);
      }
    }
  }

  // ---- A block of letters with a language of letters ---------------------------------------------------------

  /** A fence with a language of n letters, then n' letters. */
  function Fenced(n: nat, n': nat): string {
    TICKS + Letters(n) + "\n" + Letters(n')
  }

  lemma {:induction false} LStripSolid(s: string)
    requires s == "" || !IsSpace(s[0])
    ensures LStrip(s) == s
  {}

  lemma {:induction false} FirstWordSolid(s: string)
    requires forall c :: c in s ==> !IsSpace(c)
    ensures FirstWord(s) == s
    decreases |s|
  {
    if s != "" {
      assert s[0] in s && s == [s[0]] + s[1..];
      FirstWordSolid(s[1..]);
    }
  }

  lemma StripSolid(s: string)
    requires forall c :: c in s ==> !IsSpace(c)
    ensures Strip(s) == s
  {
    assert s != "" ==> s[0] in s && s[|s| - 1] in s;
    LStripSolid(s);
  }

  lemma AfterOne(open: Option<string>, line: string)
    ensures After(open, [line])
            == if !IsFence(line) then open else if open.Some? then None else Some(Info(line))
  {
    hide IsFence, Info;
    assert [line][..0] == [];
  }

  /** The opening line opens a block in its language. */
  lemma LanguageOpens(n: nat)
    ensures OpenAfter(None, TICKS + Letters(n)) == Some(Letters(n))
  {
    var line := TICKS + Letters(n);
    AfterOne(None, line);
    OneLine(line);
    TicksAreAFence(Letters(n));
    StripSolid(line);
    assert line[3..] == Letters(n);
    StripSolid(Letters(n));
    FirstWordSolid(Letters(n));
  }

  lemma LettersAreNoFence(n: nat)
    ensures !IsFence(Letters(n)) && Lines(Letters(n)) == [Letters(n)]
  {
    OneLine(Letters(n));
    StripSolid(Letters(n));
  }

  /** Letters leave a block open. */
  lemma LettersStayInside(open: Option<string>, n: nat)
    ensures OpenAfter(open, Letters(n)) == open
  {
    LettersAreNoFence(n);
    AfterOne(open, Letters(n));
  }

  /** ... also after the line that opened it. */
  lemma BlockStaysOpen(n: nat)
    ensures OpenAfter(None, TICKS + "\n" + Letters(n)) == Some("")
  {
    LinesJoin(TICKS, Letters(n));
    OneLine(TICKS);
    LettersAreNoFence(n);
    LanguageOpens(0);
    assert TICKS + Letters(0) == TICKS;
    var lines := Lines(TICKS + "\n" + Letters(n));
    assert lines == [TICKS, Letters(n)] && lines[..1] == [TICKS];
  }

  /** The only language word of the text is the one on its first line. */
  lemma FencedInfo(n: nat, n': nat)
    ensures InfoWordsFit(Fenced(n, n'), n)
  {
    var s := Fenced(n, n');
    forall before, blank, word, after | InfoWord(s, before, blank, word, after) ensures |word| <= n {
      FencedWord(s, n, n', before, blank, word, after);
    }
  }

  lemma FencedWord(s: string, n: nat, n': nat, before: string, blank: string, word: string, after: string)
    requires s == Fenced(n, n') && InfoWord(s, before, blank, word, after)
    ensures |word| <= n
  {
    var b, w := |before|, |before| + 3 + |blank|;
    assert s[b] == TICKS[0] && s[b + 1] == TICKS[1] && s[b + 2] == TICKS[2];
    assert b == 0;
    assert forall i :: 3 <= i < 3 + |blank| ==> s[i] in blank;
    assert s[3] in blank ==> IsSpace(s[3]) && s[3] != '\n';
    assert s[3 + n] == '\n' && IsSpace('\n');
    assert blank == "";
    assert forall i :: 0 <= i < |word| ==> word[i] == s[3 + i] && word[i] in word && !IsSpace(word[i]);
  }

  // ---- The first round ----------------------------------------------------------------------------------------

  lemma {:induction false} ThreeTicks(n: nat)
    ensures BareTicks(TICKS + Letters(n)) == 3
    decreases n
  {
    var s := TICKS + Letters(n);
    if n == 0 {
      assert s == "```" && "```"[..2] == "``" && "``"[..1] == "`" && "`"[..0] == "";
      assert BareTicks("`") == 1;
      assert BareTicks("``") == 2;
    } else {
      assert s[..|s| - 1] == TICKS + Letters(n - 1);
      ThreeTicks(n - 1);
    }
  }

  lemma {:induction false} ThreeTicksBelow(n: nat)
    ensures BareTicks(TICKS + "\n" + Letters(n)) == 3
    decreases n
  {
    var s := TICKS + "\n" + Letters(n);
    if n == 0 {
      ThreeTicks(0);
      assert s[..3] == TICKS + Letters(0);
    } else {
      assert s[..|s| - 1] == TICKS + "\n" + Letters(n - 1);
      ThreeTicksBelow(n - 1);
    }
  }

  /** Nothing before the three backticks to cut at. */
  lemma NoSpanMoves(candidate: string, at: nat, headroom: nat)
    requires 1 <= at <= headroom && 3 <= |candidate| <= at && candidate[..3] == TICKS
    requires forall i :: 3 <= i < |candidate| ==> candidate[i] != '`'
    ensures BeforeSpan(candidate, at, headroom) == at
  {
    RFindIsLast(candidate, '`', |candidate|);
    assert candidate[2] == TICKS[2] && candidate[1] == TICKS[1] && candidate[0] == TICKS[0];
    assert RFind(candidate, '`', |candidate|) == 2;
    assert LastBare(candidate, 2) == 2;
    RFindIsLast(candidate, ' ', 2);
    RFindIsLast(candidate, '\n', 2);
  }

  /** The text is cut behind its first line, when that line just fills the second half of the room. */
  lemma CutBehindLine(n: nat, n': nat, headroom: nat)
    requires headroom / 2 <= 3 + n <= headroom <= |Fenced(n, n')|
    ensures CutAt(Fenced(n, n'), headroom) == 3 + n
  {
    var s, f := Fenced(n, n'), 3 + n;
    var region := Take(s, headroom);
    RFindIsLast(region, '\n', |region|);
    RFindIsLast(region, ' ', |region|);
    assert s[f] == '\n' && forall i :: 0 <= i < |s| && i != f ==> s[i] != '\n' && s[i] != ' ';
    assert Boundary(s, headroom) == f;
    var candidate := Take(s, f);
    assert candidate == TICKS + Letters(n);
    ThreeTicks(n);
    NoSpanMoves(candidate, f, headroom);
  }

  /** The text is cut at the end of the room, when the first line ends in its first half. */
  lemma CutInside(n': nat, headroom: nat)
    requires 8 <= headroom <= |Fenced(0, n')|
    ensures CutAt(Fenced(0, n'), headroom) == headroom
  {
    var s := Fenced(0, n');
    var region := Take(s, headroom);
    RFindIsLast(region, '\n', |region|);
    RFindIsLast(region, ' ', |region|);
    assert s[3] == '\n' && forall i :: 0 <= i < |s| && i != 3 ==> s[i] != '\n' && s[i] != ' ';
    assert Boundary(s, headroom) == headroom;
    assert region == TICKS + "\n" + Letters(headroom - 4);
    ThreeTicksBelow(headroom - 4);
    NoSpanMoves(region, headroom, headroom);
  }

  /** What the rounds after the first make of the letters. */
  lemma LettersCut(n: nat, carry: Option<string>, limit: int)
    ensures BodyOf(Letters(n), carry, limit) == Letters(Min(n, Headroom(limit, carry)))
  {
    var h := Headroom(limit, carry);
    var region := Take(Letters(n), h);
    assert region == Letters(Min(n, h));
    RFindAbsent(region, '\n', |region|);
    RFindAbsent(region, ' ', |region|);
    NoTicks(region);
    assert CutAt(Letters(n), h) == h;
  }

  function Min(a: int, b: int): int {
    if a < b then a else b
  }

  /** One round that is not the last, with what it cuts. */
  lemma RoundIs(remaining: string, carry: Option<string>, limit: int, body: string, open: Option<string>, rest: string)
    requires remaining != "" && !IsLast(remaining, carry, limit)
    requires body == BodyOf(remaining, carry, limit) && open == OpenAfter(carry, body)
    requires rest == LStrip(remaining[|body|..])
    ensures Pieces(remaining, carry, limit) == [Piece(carry, body, open.Some?)] + Pieces(rest, open, limit)
  {
    hide BodyOf, OpenAfter, LStrip;
    BodyIsPrefix(remaining, carry, limit);
  }

  lemma LettersRest(n: nat, k: nat)
    requires k <= n
    ensures LStrip(Letters(n)[k..]) == Letters(n - k)
  {
    assert Letters(n)[k..] == Letters(n - k);
    LStripSolid(Letters(n - k));
  }

  lemma LettersRound(n: nat, k: nat, m: nat, carry: Option<string>, limit: int)
    requires n > 0 && !IsLast(Letters(n), carry, limit)
    requires k == Min(n, Headroom(limit, carry)) && m == n - k
    ensures Pieces(Letters(n), carry, limit)
            == [Piece(carry, Letters(k), carry.Some?)] + Pieces(Letters(m), carry, limit)
  {
    hide Headroom, BodyOf, OpenAfter, LStrip, IsLast;
    LettersCut(n, carry, limit);
    LettersStayInside(carry, k);
    LettersRest(n, k);
    RoundIs(Letters(n), carry, limit, Letters(k), carry, Letters(m));
  }

  /** ... so with room for five letters a round there are few rounds. */
  lemma {:induction false} FewPieces(n: nat, carry: Option<string>, limit: int)
    requires Headroom(limit, carry) >= 5
    ensures |Pieces(Letters(n), carry, limit)| <= (n + 4) / 5
    decreases n
  {
    hide Headroom, IsLast, BodyOf, OpenAfter;
    if n > 0 && !IsLast(Letters(n), carry, limit) {
      var k := Min(n, Headroom(limit, carry));
      LettersRound(n, k, n - k, carry, limit);
      FewPieces(n - k, carry, limit);
    }
  }

  /** The first two rounds on a fenced text whose language leaves no room: the second chunk reopens the
      block, and its body has half the limit all the same. */
  lemma TwoRounds(n: nat, n': nat, limit: int) returns (carry: Option<string>, h: nat)
    requires limit >= 11 && limit != 15 && limit != 16 && n == Max(0, limit - 18) && n' == limit / 2 + 15
    ensures carry == Some(Letters(n)) && h == limit / 2
    ensures Pieces(Fenced(n, n'), None, limit)
         == [Piece(None, TICKS + Letters(n), true)]
            + ([Piece(carry, Letters(h), true)] + Pieces(Letters(15), carry, limit))
    ensures Headroom(limit, carry) == h
  {
    hide Pieces, Headroom, IsLast;
    carry, h := Some(Letters(n)), limit / 2;
    FirstRoundIs(n, n', limit);
    SecondRoom(n, n', limit);
    LettersRound(n', h, 15, carry, limit);
  }

  lemma SecondRoom(n: nat, n': nat, limit: int)
    requires limit >= 11 && n == Max(0, limit - 18) && n' == limit / 2 + 15
    ensures Headroom(limit, Some(Letters(n))) == limit / 2 && !IsLast(Letters(n'), Some(Letters(n)), limit)
  {
    PrefixSize(Some(Letters(n)));
  }

  lemma FirstRoundIs(n: nat, n': nat, limit: int)
    requires limit >= 11 && limit != 15 && limit != 16 && n == Max(0, limit - 18) && n' == limit / 2 + 15
    ensures Pieces(Fenced(n, n'), None, limit)
         == [Piece(None, TICKS + Letters(n), true)] + Pieces(Letters(n'), Some(Letters(n)), limit)
  {
    var s := Fenced(n, n');
    FirstRoom(n, n', limit);
    CutBehindLine(n, n', Headroom(limit, None));
    hide Headroom, IsLast, CutAt, OpenAfter, LStrip;
    BehindLine(n, n', limit);
    LanguageOpens(n);
    RoundIs(s, None, limit, TICKS + Letters(n), Some(Letters(n)), Letters(n'));
  }

  lemma FirstRoom(n: nat, n': nat, limit: int)
    requires limit >= 11 && limit != 15 && limit != 16 && n == Max(0, limit - 18) && n' == limit / 2 + 15
    ensures Headroom(limit, None) / 2 <= 3 + n <= Headroom(limit, None) <= |Fenced(n, n')|
    ensures !IsLast(Fenced(n, n'), None, limit)
  {}

  lemma BehindLine(n: nat, n': nat, limit: int)
    requires n' > 0 && CutAt(Fenced(n, n'), Headroom(limit, None)) == 3 + n
    ensures BodyOf(Fenced(n, n'), None, limit) == TICKS + Letters(n)
    ensures LStrip(Fenced(n, n')[3 + n..]) == Letters(n')
  {
    hide CutAt, Headroom;
    var s := Fenced(n, n');
    assert Take(s, 3 + n) == TICKS + Letters(n);
    assert s[3 + n..] == "\n" + Letters(n') && ("\n" + Letters(n'))[1..] == Letters(n');
    LStripSolid(Letters(n'));
  }

  /** A text whose language is one letter too long for the limit: its second chunk overruns. */
  lemma LongLanguageOverruns(limit: int) returns (text: string)
    requires limit >= 11 && limit != 15 && limit != 16
    ensures InfoWordsFit(text, Max(0, limit - 18)) && !WithinLimit(text, limit)
  {
    hide Headroom, Pieces;
    var n, n' := Max(0, limit - 18), limit / 2 + 15;
    text := Fenced(n, n');
    FencedInfo(n, n');
    var carry, h := TwoRounds(n, n', limit);
    FewPieces(15, carry, limit);
    var ps := Pieces(text, None, limit);
    SplitChunk(text, limit, true, 1);
    RenderSize(ps[1]);
    PrefixSize(carry);
    IndicatorSize(1, |ps|);
    assert |Split(text, limit, true)[1]| > limit;
  }

  /** Texts whose language words have at most m characters stay within the limit when they make fewer
      than ten chunks, whatever else they say, if and only if the limit is at least 11 and leaves the
      words room: m <= limit - 19. No room is needed when there is no fence at all (m < 0), or for
      the limits 15 and 16, where a chunk is too short to open a block. */
  lemma InfoWordsDecide(limit: int, m: int)
    ensures (forall text: string :: InfoWordsFit(text, m) ==> WithinLimit(text, limit)) <==>
              limit >= 11 && (m < 0 || m <= limit - 19 || limit == 15 || limit == 16)
  {
    if limit < 11 {
      var text := LongWordOverruns(limit);
      PlainHasNoInfo(text, m);
    } else if m < 0 || m <= limit - 19 || limit == 15 || limit == 16 {
      forall text: string | InfoWordsFit(text, m) ensures WithinLimit(text, limit) {
        if m < 0 {
          FewerWordsFit(text, m, -1);
          NoInfoFits(text, limit);
        } else if m <= limit - 19 {
          InfoFitsLimit(text, limit, m);
        } else {
          TinyLimitFits(text, limit);
        }
      }
    } else {
      var text := LongLanguageOverruns(limit);
      FewerWordsFit(text, Max(0, limit - 18), m);
    }
  }

  // ---- Ten chunks and more ----------------------------------------------------------------------------------

  /** As many letters as k rounds and a full last chunk take inside a block without a language. */
  function Tail(k: nat, limit: int): int {
    if k == 0 then limit - 14 else Tail(k - 1, limit) + (limit - 18)
  }

  lemma {:induction false} TailGrows(k: nat, limit: int)
    requires limit >= 19
    ensures Tail(k, limit) >= limit - 14 + (if limit > 19 then 2 * k else k)
    ensures Tail(k, limit) >= limit - 14 + (limit - 18) * (if k > 0 then 1 else 0)
    decreases k
  {
    if k > 0 { TailGrows(k - 1, limit); }
  }

  /** A full last chunk of letters. */
  lemma FullLast(n: nat, limit: int)
    requires limit >= 19 && n == limit - 14
    ensures Pieces(Letters(n), Some(""), limit) == [Piece(Some(""), Letters(n), true)]
  {
    hide OpenAfter, BodyOf;
    PrefixSize(Some(""));
    LettersStayInside(Some(""), n);
    assert IsLast(Letters(n), Some(""), limit);
  }

  lemma FullRoom(n: nat, limit: int)
    requires limit >= 19 && n > limit - 14
    ensures Headroom(limit, Some("")) == limit - 18 && !IsLast(Letters(n), Some(""), limit)
  {
    PrefixSize(Some(""));
  }

  lemma FullRound(n: nat, m: nat, limit: int)
    requires limit >= 19 && m >= limit - 14 && n == m + (limit - 18)
    ensures Pieces(Letters(n), Some(""), limit)
            == [Piece(Some(""), Letters(limit - 18), true)] + Pieces(Letters(m), Some(""), limit)
  {
    hide Headroom, IsLast, Pieces, Letters;
    FullRoom(n, limit);
    LettersRound(n, limit - 18, m, Some(""), limit);
  }

  lemma {:induction false} TailPieces(k: nat, limit: int)
    requires limit >= 19 && Tail(k, limit) > 0
    ensures var ps := Pieces(Letters(Tail(k, limit)), Some(""), limit);
            |ps| == k + 1 && ps[k] == Piece(Some(""), Letters(limit - 14), true)
    decreases k
  {
    hide Pieces;
    TailGrows(k, limit);
    if k == 0 {
      FullLast(Tail(0, limit), limit);
    } else {
      TailGrows(k - 1, limit);
      TailPieces(k - 1, limit);
      FullRound(Tail(k, limit), Tail(k - 1, limit), limit);
    }
  }

  /** A fence, four line ends and letters, which a limit of 19 cuts after the first line end. */
  lemma PaddedRound(n: nat) returns (text: string)
    requires n >= 13
    ensures |text| > 19 && InfoWordsFit(text, 0)
    ensures Pieces(text, None, 19) == [Piece(None, TICKS + "\n", true)] + Pieces(Letters(n), Some(""), 19)
  {
    text := TICKS + "\n\n\n\n" + Letters(n);
    PaddedInfo(text, n);
    PaddedCut(text, n);
    hide CutAt, OpenAfter, LStrip;
    assert Take(text, 4) == TICKS + "\n" && Letters(0) == "" && TICKS + "\n" + Letters(0) == TICKS + "\n";
    BlockStaysOpen(0);
    RoundIs(text, None, 19, TICKS + "\n", Some(""), Letters(n));
  }

  lemma PaddedInfo(s: string, n: nat)
    requires s == TICKS + "\n\n\n\n" + Letters(n)
    ensures InfoWordsFit(s, 0)
  {
    forall before, blank, word, after | InfoWord(s, before, blank, word, after) ensures |word| <= 0 {
      var b := |before|;
      assert s[b] == TICKS[0] && s[b + 1] == TICKS[1] && s[b + 2] == TICKS[2];
      assert b == 0;
      assert forall i :: 3 <= i < 3 + |blank| ==> s[i] in blank;
      assert s[3] == '\n' && IsSpace('\n') && blank == "";
      assert s[3..] == word + after && (word + after)[0] == '\n';
    }
  }

  lemma PaddedCut(s: string, n: nat)
    requires s == TICKS + "\n\n\n\n" + Letters(n)
    ensures CutAt(s, 5) == 4 && LStrip(s[4..]) == Letters(n)
  {
    var region := Take(s, 5);
    assert region == "```\n\n" && RFind(region, '\n', 5) == 4;
    assert Boundary(s, 5) == 4;
    var candidate := Take(s, 4);
    assert candidate == TICKS + "\n" + Letters(0);
    ThreeTicksBelow(0);
    NoSpanMoves(candidate, 4, 5);
    var l := Letters(n);
    LStripSolid(l);
    assert s[4..][1..] == s[5..] && s[5..][1..] == s[6..] && s[6..][1..] == s[7..] == l;
    assert LStrip(s[6..]) == l;
    assert LStrip(s[5..]) == l;
  }

  /** A limit of 20 or 21 cuts right behind the fence. */
  lemma NarrowRound(n: nat, limit: int)
    requires 20 <= limit <= 21 && n + 4 > limit
    ensures Pieces(Fenced(0, n), None, limit) == [Piece(None, TICKS, true)] + Pieces(Letters(n), Some(""), limit)
  {
    hide OpenAfter, BodyOf, LStrip, CutAt;
    CutBehindLine(0, n, limit - 14);
    BehindLine(0, n, limit);
    LanguageOpens(0);
    assert Letters(0) == "" && TICKS + Letters(0) == TICKS;
    RoundIs(Fenced(0, n), None, limit, TICKS, Some(""), Letters(n));
  }

  /** A wider one fills its room with letters. */
  lemma WideRound(n: nat, limit: int)
    requires limit >= 22 && n + 4 > limit
    ensures var body := TICKS + "\n" + Letters(limit - 18);
            Pieces(Fenced(0, n), None, limit)
            == [Piece(None, body, true)] + Pieces(Letters(n - (limit - 18)), Some(""), limit)
  {
    hide OpenAfter, BodyOf, LStrip, CutAt;
    CutInside(n, limit - 14);
    InsideBlock(n, limit);
    BlockStaysOpen(limit - 18);
    RoundIs(Fenced(0, n), None, limit, TICKS + "\n" + Letters(limit - 18), Some(""), Letters(n - (limit - 18)));
  }

  /** A block of letters of which the first round leaves exactly the tail. */
  lemma FirstOfMany(k: nat, limit: int) returns (text: string)
    requires limit >= 19 && k >= 8
    ensures |text| > limit && InfoWordsFit(text, 0)
    ensures |Pieces(text, None, limit)| == k + 2
    ensures Pieces(text, None, limit)[k + 1] == Piece(Some(""), Letters(limit - 14), true)
  {
    hide Pieces, InfoWordsFit, Tail;
    TailGrows(k, limit);
    TailPieces(k, limit);
    var t := Tail(k, limit);
    if limit == 19 {
      text := PaddedRound(t);
    } else {
      TailLong(k, limit);
      text := Fenced(0, if limit < 22 then t else t + limit - 18);
      if limit < 22 {
        FencedInfo(0, t);
        NarrowRound(t, limit);
      } else {
        FencedInfo(0, t + limit - 18);
        WideRound(t + limit - 18, limit);
      }
    }
  }

  lemma {:induction false} TailLong(k: nat, limit: int)
    requires limit >= 20 && k >= 8
    ensures Tail(k, limit) + 4 > limit
    decreases k
  {
    if k == 8 {
      assert Tail(0, limit) == limit - 14 && Tail(1, limit) == Tail(0, limit) + (limit - 18);
      TailGrows(8, limit);
    } else {
      TailLong(k - 1, limit);
    }
  }

  lemma InsideBlock(n: nat, limit: int)
    requires limit >= 22 && n >= limit - 18 && CutAt(Fenced(0, n), limit - 14) == limit - 14
    ensures BodyOf(Fenced(0, n), None, limit) == TICKS + "\n" + Letters(limit - 18)
    ensures LStrip(Fenced(0, n)[limit - 14..]) == Letters(n - (limit - 18))
  {
    hide CutAt;
    var s := Fenced(0, n);
    assert Headroom(limit, None) == limit - 14;
    assert Take(s, limit - 14) == TICKS + "\n" + Letters(limit - 18);
    assert s[limit - 14..] == Letters(n - (limit - 18));
    LStripSolid(Letters(n - (limit - 18)));
  }

  /** From ten chunks on the general bound is met: for each number of chunks there is a text, with no
      language at all, whose last chunk is closed and has limit + 2*digits - 2 characters. */
  lemma BoundIsMet(limit: int, n: nat) returns (text: string)
    requires limit >= 19 && n >= 10
    ensures InfoWordsFit(text, limit - 19) && |Split(text, limit, true)| == n
    ensures |Split(text, limit, true)[n - 1]| == limit + 2 * |Decimal(n)| - 2
  {
    hide Pieces, Decimal;
    text := FirstOfMany(n - 2, limit);
    FewerWordsFit(text, 0, limit - 19);
    var ps := Pieces(text, None, limit);
    SplitIsNumbered(text, limit);
    SplitChunk(text, limit, true, n - 1);
    RenderSize(ps[n - 1]);
    PrefixSize(Some(""));
  }

  lemma SplitIsNumbered(text: string, limit: int)
    requires |text| > limit && text != ""
    ensures |Split(text, limit, true)| == |Pieces(text, None, limit)|
  {}

  ghost predicate AllWithin(text: string, limit: int) {
    var cs := Split(text, limit, true);
    forall k :: 0 <= k < |cs| ==> |cs[k]| <= limit
  }

  /** Texts whose language words have room and that make exactly n chunks all stay within the limit if
      and only if n is less than ten. */
  lemma ManyChunksFitIff(limit: int, n: nat)
    requires limit >= 19
    ensures (forall text: string :: InfoWordsFit(text, limit - 19) && |Split(text, limit, true)| == n
              ==> AllWithin(text, limit))
            <==> n < 10
  {
    if n < 10 {
      forall text: string | InfoWordsFit(text, limit - 19) && |Split(text, limit, true)| == n
        ensures AllWithin(text, limit)
      {
        forall k | 0 <= k < n ensures |Split(text, limit, true)[k]| <= limit { ChunksFit(text, limit, true, k); }
      }
    } else {
      var text := BoundIsMet(limit, n);
      DecimalGrows(10, n);
      assert Decimal(10) == Decimal(1) + ['0'];
      assert !AllWithin(text, limit);
    }
  }
}
