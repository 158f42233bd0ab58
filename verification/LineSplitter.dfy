/** Splitting the child's output into lines with a bounded buffer
    (fronts/web/src/bff/wire.ts:126-179).

    `render` stands for decoding a line, dropping its carriage return and
    recognising a blank one (None, which is not handed over). */
module LineSplitter {
  import opened Tables

  type Byte = b: int | 0 <= b < 256

  const NEWLINE: Byte := 10

  /** The calls made to onLine and onOverflow, in order. */
  datatype Call<L> = OnLine(line: L) | OnOverflow(bytes: nat)

  /** What the closure keeps between chunks, and the calls made so far. */
  datatype State<L> = State(held: seq<Byte>, size: nat, dropping: bool, calls: seq<Call<L>>)

  type Render<!L> = seq<Byte> -> Option<L>

  // ---- What splitting means ------------------------------------------------------------------

  /** The calls for one complete line. */
  function LineCalls<L>(line: seq<Byte>, max: nat, render: Render<L>): seq<Call<L>> {
    if |line| > max then [OnOverflow(|line|)]
    else match render(line)
      case Some(l) => [OnLine(l)]
      case None => []
  }

  /** Position of the first newline at or after `from`, or the length. */
  function LineEnd(s: seq<Byte>, from: nat): (r: nat)
    requires from <= |s|
    ensures from <= r <= |s|
    ensures NEWLINE !in s[from..r]
    ensures r < |s| ==> s[r] == NEWLINE
    decreases |s| - from
  {
    if from == |s| || s[from] == NEWLINE then from else LineEnd(s, from + 1)
  }

  /** A whole stream, split at its newlines; a last line without one counts unless empty. */
  function Split<L>(s: seq<Byte>, max: nat, render: Render<L>): seq<Call<L>>
    decreases |s|
  {
    var end := LineEnd(s, 0);
    if end < |s| then LineCalls(s[..end], max, render) + Split(s[end + 1..], max, render)
    else if s == [] then []
    else LineCalls(s, max, render)
  }

  // ---- What the splitter does, byte by byte -----------------------------------------------------

  function Begin<L>(): State<L> {
    State([], 0, false, [])
  }

  function Emit<L>(st: State<L>, render: Render<L>): State<L> {
    var call := if st.dropping then [OnOverflow(st.size)]
                else match render(st.held)
                  case Some(l) => [OnLine(l)]
                  case None => [];
    State([], 0, false, st.calls + call)
  }

  /** A piece of a line: counted, and kept unless the line is too long. */
  function Piece<L>(st: State<L>, piece: seq<Byte>, max: nat): State<L> {
    var size := st.size + |piece|;
    var dropping := st.dropping || size > max;
    State(if dropping then [] else st.held + piece, size, dropping, st.calls)
  }

  function Feed<L>(st: State<L>, bytes: seq<Byte>, max: nat, render: Render<L>): State<L>
    decreases |bytes|
  {
    if bytes == [] then st
    else Feed(if bytes[0] == NEWLINE then Emit(st, render) else Piece(st, bytes[..1], max), bytes[1..], max, render)
  }

  function Finish<L>(st: State<L>, render: Render<L>): State<L> {
    if st.size > 0 then Emit(st, render) else st
  }

  /** The state that has seen `line` since the last newline. */
  function Within<L>(line: seq<Byte>, calls: seq<Call<L>>, max: nat): State<L> {
    State(if |line| > max then [] else line, |line|, |line| > max, calls)
  }

  ghost predicate Good<L>(st: State<L>, max: nat) {
    && (st.dropping <==> st.size > max)
    && (if st.dropping then st.held == [] else |st.held| == st.size)
  }

  lemma {:induction false} FeedAppend<L>(st: State<L>, a: seq<Byte>, b: seq<Byte>, max: nat, render: Render<L>)
    ensures Feed(st, a + b, max, render) == Feed(Feed(st, a, max, render), b, max, render)
    decreases |a|
  {
    if a == [] {
      assert a + b == b;
    } else {
      assert (a + b)[1..] == a[1..] + b;
      assert (a + b)[..1] == a[..1];
      FeedAppend(if a[0] == NEWLINE then Emit(st, render) else Piece(st, a[..1], max), a[1..], b, max, render);
    }
  }

  lemma TwoPieces<L>(st: State<L>, a: seq<Byte>, b: seq<Byte>, max: nat)
    requires Good(st, max)
    ensures Piece(Piece(st, a, max), b, max) == Piece(st, a + b, max)
    ensures Good(Piece(st, a, max), max) && Good(Piece(st, a + b, max), max)
  {
    assert st.held + (a + b) == (st.held + a) + b;
  }

  lemma EmitGood<L>(st: State<L>, max: nat, render: Render<L>)
    ensures Good(Emit(st, render), max)
  {}

  /** A piece without newline may be taken at once. */
  lemma {:induction false} FeedPiece<L>(st: State<L>, piece: seq<Byte>, max: nat, render: Render<L>)
    requires Good(st, max) && NEWLINE !in piece
    ensures Feed(st, piece, max, render) == Piece(st, piece, max)
    ensures Good(Piece(st, piece, max), max)
    decreases |piece|
  {
    if piece == [] {
      assert st.held + [] == st.held;
    } else {
      var st1 := Piece(st, piece[..1], max);
      assert piece[0] in piece && st1 == Feed(st, piece[..1], max, render) by { assert piece[..1][1..] == []; }
      FeedPiece(st1, piece[1..], max, render);
      assert Feed(st, piece, max, render) == Feed(st1, piece[1..], max, render);
      TwoPieces(st, piece[..1], piece[1..], max);
      assert piece == piece[..1] + piece[1..];
    }
  }

  lemma {:induction false} FeedGood<L>(st: State<L>, bytes: seq<Byte>, max: nat, render: Render<L>)
    requires Good(st, max)
    ensures Good(Feed(st, bytes, max, render), max)
    decreases |bytes|
  {
    if bytes != [] {
      FeedGood(if bytes[0] == NEWLINE then Emit(st, render) else Piece(st, bytes[..1], max), bytes[1..], max, render);
    }
  }

  /** A piece, then either nothing or a newline and more. */
  lemma FeedLine<L>(st: State<L>, bytes: seq<Byte>, piece: seq<Byte>, rest: seq<Byte>, max: nat, render: Render<L>)
    requires Good(st, max) && NEWLINE !in piece && bytes == piece + rest
    ensures Good(Piece(st, piece, max), max)
    ensures rest == [] ==> Feed(st, bytes, max, render) == Piece(st, piece, max)
    ensures rest != [] && rest[0] == NEWLINE
            ==> Feed(st, bytes, max, render) == Feed(Emit(Piece(st, piece, max), render), rest[1..], max, render)
  {
    FeedAppend(st, piece, rest, max, render);
    FeedPiece(st, piece, max, render);
  }

  lemma WholeLine<L>(calls: seq<Call<L>>, line: seq<Byte>, max: nat, render: Render<L>)
    ensures Good(Within([], calls, max), max)
    ensures Piece(Within([], calls, max), line, max) == Within(line, calls, max)
    ensures Emit(Within(line, calls, max), render) == Within([], calls + LineCalls(line, max, render), max)
  {
    assert [] + line == line;
  }

  lemma {:induction false} FeedIsSplit<L>(calls: seq<Call<L>>, s: seq<Byte>, max: nat, render: Render<L>)
    ensures Finish(Feed(Within([], calls, max), s, max, render), render).calls == calls + Split(s, max, render)
    decreases |s|
  {
    var end := LineEnd(s, 0);
    var line, rest := s[..end], s[end..];
    assert s[0..end] == line;
    WholeLine(calls, line, max, render);
    FeedLine(Within([], calls, max), s, line, rest, max, render);
    if end < |s| {
      var now := LineCalls(line, max, render);
      assert rest[1..] == s[end + 1..];
      FeedIsSplit(calls + now, s[end + 1..], max, render);
      Regroup(calls, now, Split(s[end + 1..], max, render));
    } else {
      assert line == s;
      assert calls + [] == calls;
    }
  }

  lemma Regroup<T>(a: seq<T>, b: seq<T>, c: seq<T>)
    ensures (a + b) + c == a + (b + c)
  {}

  function Concat(chunks: seq<seq<Byte>>): seq<Byte> {
    if chunks == [] then [] else chunks[0] + Concat(chunks[1..])
  }

  function FeedAll<L>(st: State<L>, chunks: seq<seq<Byte>>, max: nat, render: Render<L>): State<L>
    decreases |chunks|
  {
    if chunks == [] then st else FeedAll(Feed(st, chunks[0], max, render), chunks[1..], max, render)
  }

  lemma {:induction false} FeedAllIsFeed<L>(st: State<L>, chunks: seq<seq<Byte>>, max: nat, render: Render<L>)
    ensures FeedAll(st, chunks, max, render) == Feed(st, Concat(chunks), max, render)
    decreases |chunks|
  {
    if chunks != [] {
      FeedAppend(st, chunks[0], Concat(chunks[1..]), max, render);
      FeedAllIsFeed(Feed(st, chunks[0], max, render), chunks[1..], max, render);
    }
  }

  /** However the stream is cut into chunks, the calls are those of splitting it whole at its
      newlines: long lines are reported once, with their full length. Between chunks no more
      than `max` bytes are held. */
  lemma ChunkingDoesNotMatter<L>(chunks: seq<seq<Byte>>, max: nat, render: Render<L>)
    ensures Finish(FeedAll(Begin(), chunks, max, render), render).calls == Split(Concat(chunks), max, render)
    ensures |FeedAll(Begin(), chunks, max, render).held| <= max
  {
    FeedAllIsFeed(Begin<L>(), chunks, max, render);
    assert Begin<L>() == Within([], [], max);
    FeedIsSplit<L>([], Concat(chunks), max, render);
    assert [] + Split(Concat(chunks), max, render) == Split(Concat(chunks), max, render);
    FeedGood(Begin<L>(), Concat(chunks), max, render);
  }

  // ---- The splitter in place -----------------------------------------------------------------------

  class Splitter<L> {
    const maxBytes: nat
    const render: Render<L>
    var parts: seq<seq<Byte>>
    var size: nat
    var dropping: bool
    var calls: seq<Call<L>>

    function View(): State<L>
      reads this
    {
      State(Concat(parts), size, dropping, calls)
    }

    ghost predicate Valid()
      reads this
    {
      Good(View(), maxBytes)
    }

    constructor (maxBytes: nat, render: Render<L>)
      ensures Valid() && View() == Begin()
      ensures this.maxBytes == maxBytes && this.render == render
    {
      this.maxBytes, this.render := maxBytes, render;
      parts, size, dropping, calls := [], 0, false, [];
    }

    method EmitLine()
      modifies this
      ensures View() == Emit(old(View()), render)
    {
      if dropping {
        calls := calls + [OnOverflow(size)];
      } else {
        match render(Concat(parts)) {
          case Some(line) => calls := calls + [OnLine(line)];
          case None =>
        }
      }
      parts, size, dropping := [], 0, false;
    }

    method Take(piece: seq<Byte>)
      requires Valid()
      modifies this
      ensures View() == Piece(old(View()), piece, maxBytes)
    {
      size := size + |piece|;
      if !dropping && size > maxBytes {
        dropping := true;
        parts := [];
      }
      if !dropping {
        ConcatPush(parts, piece);
        parts := parts + [piece];
      }
    }

    method Write(chunk: seq<Byte>)
      requires Valid()
      modifies this
      ensures Valid() && |View().held| <= maxBytes
      ensures View() == Feed(old(View()), chunk, maxBytes, render)
    {
      hide Emit, Piece;
      var start := 0;
      assert chunk[0..] == chunk;
      while start < |chunk|
        invariant 0 <= start <= |chunk|
        invariant Valid()
        invariant Feed(View(), chunk[start..], maxBytes, render) == Feed(old(View()), chunk, maxBytes, render)
      {
        var end := LineEnd(chunk, start);
        assert chunk[start..] == chunk[start..end] + chunk[end..];
        FeedLine(View(), chunk[start..], chunk[start..end], chunk[end..], maxBytes, render);
        Take(chunk[start..end]);
        if end == |chunk| { return; }
        assert chunk[end..][1..] == chunk[end + 1..];
        EmitGood(View(), maxBytes, render);
        EmitLine();
        start := end + 1;
      }
    }

    method End()
      requires Valid()
      modifies this
      ensures Valid()
      ensures View() == Finish(old(View()), render)
    {
      if size > 0 { EmitLine(); }
    }
  }

  lemma {:induction false} ConcatPush(parts: seq<seq<Byte>>, piece: seq<Byte>)
    ensures Concat(parts + [piece]) == Concat(parts) + piece
    decreases |parts|
  {
    if parts == [] {
      assert [] + [piece] == [piece];
      assert piece + [] == piece;
    } else {
      assert (parts + [piece])[1..] == parts[1..] + [piece];
      ConcatPush(parts[1..], piece);
      assert parts[0] + (Concat(parts[1..]) + piece) == (parts[0] + Concat(parts[1..])) + piece;
    }
  }
}
