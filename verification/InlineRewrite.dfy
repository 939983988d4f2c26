/** Replacing inline newlines and raw `<br>` tags by spaces. One character is one offset. */
module InlineRewrite {
  import opened Common
  import opened TextRanges
  import opened TextSearch

  /** What becomes of a stretch of the source: kept, or replaced by one space. */
  datatype Piece = Keep(at: nat) | Tag(at: nat, end: nat) | Break(at: nat, end: nat)

  function End(p: Piece): nat {
    if p.Keep? then p.at + 1 else p.end
  }

  predicate Within(p: Piece, x: nat) {
    p.at <= x < End(p)
  }

  predicate OpensBr(source: string, i: nat)
    requires i <= |source|
  {
    && i + 4 <= |source| && source[i] == '<' && source[i + 1] in {'b', 'B'} && source[i + 2] in {'r', 'R'}
    && source[i + 3] in {'>', '/', ' ', '\t', '\r', '\n'}
  }

  /** Length of the `<br>`-style tag at an offset, through the closing `>`. */
  function BrTagLen(source: string, i: nat): (r: Option<nat>)
    requires i <= |source|
    ensures r.Some? ==> r.value >= 4 && i + r.value <= |source| && source[i] == '<' && source[i + r.value - 1] == '>'
  {
    if !OpensBr(source, i) then None
    else
      var close := Find(source, i, '>');
      if close.Some? then Some(close.value - i + 1) else None
  }

  /**
   A tag is a `<`, the word `br` in whatever case, and `>`, `/` or white space behind it;
   it runs to the first `>`, wherever that is.
   */
  lemma BrMeans(source: string, i: nat, n: nat)
    requires i <= |source|
    ensures BrTagLen(source, i) == Some(n) <==>
            && 4 <= n && i + n <= |source|
            && source[i..i + 3] in ["<br", "<bR", "<Br", "<BR"]
            && source[i + 3] in ">/ \t\r\n"
            && source[i + n - 1] == '>' && '>' !in source[i..i + n - 1]
  {
    if 4 <= n && i + n <= |source| { NotIn(source, i, i + n - 1, '>'); }
    if i + 3 <= |source| {
      assert source[i..i + 3] == [source[i], source[i + 1], source[i + 2]];
    }
  }

  ghost predicate BlankIn(source: string, text: seq<Range>, i: nat)
    requires i < |source|
  {
    (source[i] == ' ' || source[i] == '\t') && Covers(text, i)
  }

  /** End of the run of blanks inside text ranges. */
  ghost function SkipBlanks(source: string, text: seq<Range>, i: nat): (r: nat)
    requires i <= |source|
    ensures i <= r <= |source| && forall k | i <= k < r :: BlankIn(source, text, k)
    decreases |source| - i
  {
    if i < |source| && BlankIn(source, text, i) then SkipBlanks(source, text, i + 1) else i
  }

  ghost function PieceAt(source: string, text: seq<Range>, html: seq<Range>, i: nat): (p: Piece)
    requires i < |source|
    ensures p.at == i && i < End(p) <= |source|
  {
    if source[i] == '<' && Covers(html, i) && BrTagLen(source, i).Some? then Tag(i, i + BrTagLen(source, i).value)
    else if source[i] == '\n' && Covers(text, i) then Break(i, SkipBlanks(source, text, i + 1))
    else Keep(i)
  }

  /** The pieces of the source from `i` on. */
  ghost function Pieces(source: string, text: seq<Range>, html: seq<Range>, i: nat): seq<Piece>
    requires i <= |source|
    decreases |source| - i
  {
    if i == |source| then []
    else
      var p := PieceAt(source, text, html, i);
      [p] + Pieces(source, text, html, End(p))
  }

  function RenderPiece(source: string, p: Piece): char {
    if p.Keep? && p.at < |source| then source[p.at] else ' '
  }

  function Render(source: string, pieces: seq<Piece>): (output: string)
    ensures |output| == |pieces|
  {
    seq(|pieces|, k requires 0 <= k < |pieces| => RenderPiece(source, pieces[k]))
  }

  /** The end of a run of blanks in the text ranges, found by peeking. */
  method SkipRun(source: string, text: seq<Range>, i: nat) returns (next: nat)
    requires i <= |source| && Separate(text)
    ensures next == SkipBlanks(source, text, i)
  {
    next := i;
    while next < |source|
      invariant i <= next <= |source|
      invariant SkipBlanks(source, text, next) == SkipBlanks(source, text, i)
    {
      if source[next] != ' ' && source[next] != '\t' { return; }
      var inside := OffsetInRanges(next, text);
      if !inside { return; }
      next := next + 1;
    }
  }

  /** One iteration: the piece that starts at `i`. */
  method NextPiece(source: string, text: seq<Range>, html: seq<Range>, i: nat) returns (written: char, next: nat)
    requires i < |source| && Separate(text) && Separate(html)
    ensures written == RenderPiece(source, PieceAt(source, text, html, i))
            && next == End(PieceAt(source, text, html, i))
  {
    if source[i] == '<' {
      var inside := OffsetInRanges(i, html);
      if inside && BrTagLen(source, i).Some? {
        return ' ', i + BrTagLen(source, i).value;
      }
    }
    if source[i] == '\n' {
      var inside := OffsetInRanges(i, text);
      if inside {
        next := SkipRun(source, text, i + 1);
        return ' ', next;
      }
    }
    return source[i], i + 1;
  }

  method RewriteInline(source: string, text: seq<Range>, html: seq<Range>) returns (output: string)
    requires Separate(text) && Separate(html)
    ensures output == Render(source, Pieces(source, text, html, 0))
  {
    hide PieceAt, RenderPiece;
    output := "";
    var i := 0;
    while i < |source|
      invariant 0 <= i <= |source|
      invariant output + Render(source, Pieces(source, text, html, i)) == Render(source, Pieces(source, text, html, 0))
    {
      RenderStep(source, text, html, i);
      var written, next := NextPiece(source, text, html, i);
      assert output + ([written] + Render(source, Pieces(source, text, html, next)))
          == (output + [written]) + Render(source, Pieces(source, text, html, next));
      output := output + [written];
      i := next;
    }
    assert Pieces(source, text, html, i) == [];
  }

  lemma RenderStep(source: string, text: seq<Range>, html: seq<Range>, i: nat)
    requires i < |source|
    ensures var p := PieceAt(source, text, html, i);
            Render(source, Pieces(source, text, html, i))
            == [RenderPiece(source, p)] + Render(source, Pieces(source, text, html, End(p)))
  {
    hide PieceAt, RenderPiece;
  }

  /** The whole preview rewrite: merge both range lists, then rewrite. */
  method SanitizeRanges(source: string, text: seq<Range>, html: seq<Range>) returns (output: string)
    ensures output == Render(source, Pieces(source, text, html, 0))
  {
    if text == [] && html == [] {
      NothingCovered(source, 0);
      return source;
    }
    var mergedText := MergeRanges(text);
    var mergedHtml := MergeRanges(html);
    output := RewriteInline(source, mergedText, mergedHtml);
    PiecesSame(source, mergedText, text, mergedHtml, html, 0);
  }

  /******* Only coverage matters *******/

  lemma {:induction false} SkipSame(source: string, a: seq<Range>, b: seq<Range>, i: nat)
    requires i <= |source| && forall x: nat :: Covers(a, x) <==> Covers(b, x)
    ensures SkipBlanks(source, a, i) == SkipBlanks(source, b, i)
    decreases |source| - i
  {
    hide Covers;
    if i < |source| && BlankIn(source, a, i) { SkipSame(source, a, b, i + 1); }
  }

  lemma {:induction false} PiecesSame(source: string, a: seq<Range>, b: seq<Range>, c: seq<Range>, d: seq<Range>,
                                      i: nat)
    requires i <= |source|
    requires (forall x: nat :: Covers(a, x) <==> Covers(b, x)) && forall x: nat :: Covers(c, x) <==> Covers(d, x)
    ensures Pieces(source, a, c, i) == Pieces(source, b, d, i)
    decreases |source| - i
  {
    hide Covers, SkipBlanks, BrTagLen;
    if i < |source| {
      SkipSame(source, a, b, i + 1);
      assert PieceAt(source, a, c, i) == PieceAt(source, b, d, i);
      hide PieceAt;
      PiecesSame(source, a, b, c, d, End(PieceAt(source, a, c, i)));
    }
  }

  lemma {:induction false} NothingCovered(source: string, i: nat)
    requires i <= |source|
    ensures Render(source, Pieces(source, [], [], i)) == source[i..]
    decreases |source| - i
  {
    if i < |source| {
      NothingCovered(source, i + 1);
      RenderStep(source, [], [], i);
      assert source[i..] == [source[i]] + source[i + 1..];
    }
  }

  /******* What the output keeps *******/

  /** The pieces tile the source without gap or overlap, each the one its offset calls for. */
  ghost predicate Tiles(source: string, text: seq<Range>, html: seq<Range>, pieces: seq<Piece>, i: nat) {
    && i <= |source|
    && (pieces == [] ==> i == |source|)
    && (pieces != [] ==> pieces[0].at == i && End(pieces[|pieces| - 1]) == |source|)
    && (forall k | 0 <= k < |pieces| ::
          i <= pieces[k].at < |source| && pieces[k] == PieceAt(source, text, html, pieces[k].at))
    && (forall k | 0 < k < |pieces| :: End(pieces[k - 1]) == pieces[k].at)
  }

  lemma {:induction false} PiecesTile(source: string, text: seq<Range>, html: seq<Range>, i: nat)
    requires i <= |source|
    ensures Tiles(source, text, html, Pieces(source, text, html, i), i)
    decreases |source| - i
  {
    if i < |source| {
      var p := PieceAt(source, text, html, i);
      PiecesTile(source, text, html, End(p));
      hide PieceAt, Pieces;
      var rest := Pieces(source, text, html, End(p));
      PrependTile(source, text, html, p, rest, i);
      assert Pieces(source, text, html, i) == [p] + rest by { PiecesUnfold(source, text, html, i); }
    }
  }

  lemma PiecesUnfold(source: string, text: seq<Range>, html: seq<Range>, i: nat)
    requires i < |source|
    ensures Pieces(source, text, html, i)
            == [PieceAt(source, text, html, i)] + Pieces(source, text, html, End(PieceAt(source, text, html, i)))
  {
    hide PieceAt;
  }

  lemma PrependTile(source: string, text: seq<Range>, html: seq<Range>, p: Piece, rest: seq<Piece>, i: nat)
    requires i < |source| && p == PieceAt(source, text, html, i) && Tiles(source, text, html, rest, End(p))
    ensures Tiles(source, text, html, [p] + rest, i)
  {
    hide PieceAt;
    var more := [p] + rest;
    forall k | 0 < k < |more| ensures End(more[k - 1]) == more[k].at {
      if k > 1 { assert End(rest[k - 2]) == rest[k - 1].at; }
    }
  }

  /** Some piece holds each offset. */
  lemma {:induction false} PieceOf(source: string, text: seq<Range>, html: seq<Range>, i: nat, x: nat) returns (k: nat)
    requires i <= x < |source|
    ensures k < |Pieces(source, text, html, i)| && Within(Pieces(source, text, html, i)[k], x)
    decreases |source| - i
  {
    hide PieceAt;
    PiecesUnfold(source, text, html, i);
    var p := PieceAt(source, text, html, i);
    if x < End(p) {
      k := 0;
    } else {
      var rest := PieceOf(source, text, html, End(p), x);
      k := rest + 1;
    }
  }

  /** Every newline left in the output was outside the text ranges. */
  lemma NewlinesAreOutside(source: string, text: seq<Range>, html: seq<Range>, k: nat)
    requires k < |Pieces(source, text, html, 0)|
    requires Render(source, Pieces(source, text, html, 0))[k] == '\n'
    ensures var p := Pieces(source, text, html, 0)[k];
            p.Keep? && p.at < |source| && source[p.at] == '\n' && !Covers(text, p.at)
  {
    hide Covers;
    PiecesTile(source, text, html, 0);
  }

  lemma {:induction false} EndsBefore(source: string, text: seq<Range>, html: seq<Range>, pieces: seq<Piece>, i: nat,
                                      k: nat, l: nat)
    requires Tiles(source, text, html, pieces, i) && k < l < |pieces|
    ensures End(pieces[k]) <= pieces[l].at
    decreases l
  {
    assert End(pieces[l - 1]) == pieces[l].at;
    if k < l - 1 {
      EndsBefore(source, text, html, pieces, i, k, l - 1);
      assert pieces[l - 1].at < End(pieces[l - 1]);
    }
  }

  lemma OnePiece(source: string, text: seq<Range>, html: seq<Range>, pieces: seq<Piece>, i: nat, k: nat, l: nat, x: nat)
    requires Tiles(source, text, html, pieces, i) && k < |pieces| && l < |pieces|
    requires Within(pieces[k], x) && Within(pieces[l], x)
    ensures k == l
  {
    if k < l { EndsBefore(source, text, html, pieces, i, k, l); }
    if l < k { EndsBefore(source, text, html, pieces, i, l, k); }
  }

  /** A tag opened in raw HTML at `i` runs over offset `x`. */
  ghost predicate RunsOver(source: string, html: seq<Range>, i: nat, x: nat) {
    i < |source| && Covers(html, i) && BrTagLen(source, i).Some? && i <= x < i + BrTagLen(source, i).value
  }

  /** Tags opened inside one another close together. */
  lemma NestedTagsClose(source: string, j: nat, i: nat)
    requires j <= i < |source| && BrTagLen(source, j).Some? && BrTagLen(source, i).Some?
    requires i < j + BrTagLen(source, j).value
    ensures i + BrTagLen(source, i).value == j + BrTagLen(source, j).value
  {}

  lemma BreakHolds(source: string, text: seq<Range>, html: seq<Range>, j: nat, i: nat)
    requires j < |source| && i < |source| && PieceAt(source, text, html, j).Break?
             && Within(PieceAt(source, text, html, j), i)
    ensures source[i] != '<' && (j < i ==> source[i] != '\n')
  {
    if j < i { assert BlankIn(source, text, i); }
  }

  /** Whatever a raw tag runs over is in a replaced tag, be it this one or one it is nested in. */
  lemma RawTagReplaced(source: string, text: seq<Range>, html: seq<Range>, i: nat, x: nat)
    requires RunsOver(source, html, i, x)
    ensures Keep(x) !in Pieces(source, text, html, 0)
  {
    hide Covers, Pieces, BrTagLen;
    PiecesTile(source, text, html, 0);
    var pieces := Pieces(source, text, html, 0);
    var k := PieceOf(source, text, html, 0, i);
    var j := pieces[k].at;
    assert pieces[k] == PieceAt(source, text, html, j);
    if pieces[k].Break? { BreakHolds(source, text, html, j, i); }
    assert pieces[k].Tag?;
    NestedTagsClose(source, j, i);
    assert Within(pieces[k], x);
    if Keep(x) in pieces {
      var l :| 0 <= l < |pieces| && pieces[l] == Keep(x);
      OnePiece(source, text, html, pieces, 0, k, l, x);
    }
  }

  /** Offset `x` is a newline in the text ranges, or in the run of covered blanks behind one. */
  ghost predicate Collapsed(source: string, text: seq<Range>, x: nat) {
    exists n: nat :: RunBehind(source, text, n, x)
  }

  ghost predicate RunBehind(source: string, text: seq<Range>, n: nat, x: nat) {
    && n <= x < |source| && source[n] == '\n' && Covers(text, n)
    && forall k | n < k <= x :: source[k] in " \t" && Covers(text, k)
  }

  lemma {:induction false} SkipsRun(source: string, text: seq<Range>, i: nat, x: nat)
    requires i <= x < |source| && forall k | i <= k <= x :: BlankIn(source, text, k)
    ensures SkipBlanks(source, text, i) > x
    decreases x - i
  {
    if i < x { SkipsRun(source, text, i + 1, x); }
  }

  /** A piece that holds a newline holds the covered blanks behind it as well. */
  lemma RunInPiece(source: string, text: seq<Range>, html: seq<Range>, j: nat, n: nat, x: nat)
    requires RunBehind(source, text, n, x) && j < |source| && Within(PieceAt(source, text, html, j), n)
    ensures !PieceAt(source, text, html, j).Keep? && Within(PieceAt(source, text, html, j), x)
  {
    hide Covers, BrTagLen;
    var p := PieceAt(source, text, html, j);
    if p.Tag? {
      var close := End(p) - 1;
      assert source[close] == '>';
      forall k | n <= k <= x ensures source[k] != '>' { if k > n { assert BlankIn(source, text, k); } }
    } else if p.Break? {
      BreakHolds(source, text, html, j, n);
      if j == n && n < x { SkipsRun(source, text, n + 1, x); }
    }
  }

  /** What a broken-off line or its blanks held is not kept. */
  lemma CollapsedReplaced(source: string, text: seq<Range>, html: seq<Range>, x: nat)
    requires Collapsed(source, text, x)
    ensures Keep(x) !in Pieces(source, text, html, 0)
  {
    hide Covers, Pieces, BlankIn, PieceAt;
    var n: nat :| RunBehind(source, text, n, x);
    PiecesTile(source, text, html, 0);
    var pieces := Pieces(source, text, html, 0);
    var k := PieceOf(source, text, html, 0, n);
    RunInPiece(source, text, html, pieces[k].at, n, x);
    if Keep(x) in pieces {
      var l :| 0 <= l < |pieces| && pieces[l] == Keep(x);
      OnePiece(source, text, html, pieces, 0, k, l, x);
    }
  }

  /** What holds an offset that is not kept. */
  lemma ReplacedBy(source: string, text: seq<Range>, html: seq<Range>, j: nat, x: nat)
    requires j < |source| && Within(PieceAt(source, text, html, j), x) && x < |source|
    ensures PieceAt(source, text, html, j).Tag? ==> RunsOver(source, html, j, x)
    ensures PieceAt(source, text, html, j).Break? ==> RunBehind(source, text, j, x)
    ensures PieceAt(source, text, html, j).Keep? ==> j == x && PieceAt(source, text, html, j) == Keep(x)
  {
    hide Covers, BrTagLen;
    if PieceAt(source, text, html, j).Break? {
      forall k | j < k <= x ensures source[k] in " \t" && Covers(text, k) { assert BlankIn(source, text, k); }
    }
  }

  /**
   An offset is kept exactly when no tag opened in raw HTML runs over it and it is neither
   a newline in the text ranges nor in the covered blanks behind one: a matter of the
   source and its ranges alone.
   */
  lemma KeptExactly(source: string, text: seq<Range>, html: seq<Range>, x: nat)
    requires x < |source|
    ensures Keep(x) in Pieces(source, text, html, 0)
            <==> (!exists i: nat :: RunsOver(source, html, i, x)) && !Collapsed(source, text, x)
  {
    hide Covers, Pieces, PieceAt, RunsOver, RunBehind;
    if i: nat :| RunsOver(source, html, i, x) { RawTagReplaced(source, text, html, i, x); }
    if Collapsed(source, text, x) { CollapsedReplaced(source, text, html, x); }
    PiecesTile(source, text, html, 0);
    var pieces := Pieces(source, text, html, 0);
    var k := PieceOf(source, text, html, 0, x);
    assert pieces[k] == PieceAt(source, text, html, pieces[k].at);
    ReplacedBy(source, text, html, pieces[k].at, x);
    if pieces[k].Keep? { assert pieces[k] in pieces; }
  }

  lemma RunCovered(source: string, text: seq<Range>, n: nat, x: nat)
    requires RunBehind(source, text, n, x)
    ensures Covers(text, x)
  {
    hide Covers;
    if n < x { assert BlankIn(source, text, x); }
  }

  /** Outside the text ranges only tags opened in raw HTML remove anything. */
  lemma OutsideTextKept(source: string, text: seq<Range>, html: seq<Range>, x: nat)
    requires x < |source| && !Covers(text, x)
    ensures Keep(x) in Pieces(source, text, html, 0) <==> !exists i: nat :: RunsOver(source, html, i, x)
  {
    KeptExactly(source, text, html, x);
    hide Covers, Pieces;
    if n: nat :| RunBehind(source, text, n, x) { RunCovered(source, text, n, x); }
  }

  /**
   All text outside both kinds of ranges is kept exactly when no tag opened in raw HTML
   runs over text outside both.
   */
  lemma OutsideKeptExactly(source: string, text: seq<Range>, html: seq<Range>)
    ensures (forall x | 0 <= x < |source| && !Covers(text, x) && !Covers(html, x) ::
              Keep(x) in Pieces(source, text, html, 0))
            <==> forall i: nat, x: nat | RunsOver(source, html, i, x) :: Covers(html, x) || Covers(text, x)
  {
    hide Covers, Pieces, BrTagLen;
    var pieces := Pieces(source, text, html, 0);
    forall x | 0 <= x < |source| && !Covers(text, x) && !Covers(html, x)
      ensures Keep(x) in pieces <==> !exists i: nat :: RunsOver(source, html, i, x)
    {
      OutsideTextKept(source, text, html, x);
    }
    forall i: nat, x: nat | RunsOver(source, html, i, x) ensures x < |source| { TagInSource(source, html, i, x); }
    hide RunsOver;
  }

  lemma TagInSource(source: string, html: seq<Range>, i: nat, x: nat)
    requires RunsOver(source, html, i, x)
    ensures x < |source|
  {}

  /** What is kept stays in order. */
  lemma KeptInOrder(source: string, text: seq<Range>, html: seq<Range>, k: nat, l: nat)
    requires k < l < |Pieces(source, text, html, 0)|
    ensures Pieces(source, text, html, 0)[k].at < Pieces(source, text, html, 0)[l].at
  {
    hide Pieces;
    PiecesTile(source, text, html, 0);
    EndsBefore(source, text, html, Pieces(source, text, html, 0), 0, k, l);
  }

  /**
   A tag left open in an HTML block runs on to the next `>` of the source: it takes the
   blank line and the paragraph behind the block with it. The collector lists the block
   `<div>` and its next line both as text and as HTML, and the paragraph `a>` as text.
   */
  lemma OpenTagTakesText()
    ensures var source, text, html := "<div>\n<br x\n\na>", [Range(0, 11), Range(13, 15)], [Range(0, 11)];
            && RunsOver(source, html, 6, 11) && !Covers(html, 11) && !Covers(text, 11)
            && Keep(11) !in Pieces(source, text, html, 0)
            && RunsOver(source, html, 6, 13) && source[13] == 'a' && Keep(13) !in Pieces(source, text, html, 0)
  {
    var source, text, html := "<div>\n<br x\n\na>", [Range(0, 11), Range(13, 15)], [Range(0, 11)];
    assert Contains(html[0], 6) && Covers(html, 6);
    assert OpensBr(source, 6);
    var close := Find(source, 6, '>');
    assert source[14] == '>' && close == Some(14);
    assert BrTagLen(source, 6) == Some(9);
    hide Find, Pieces, BrTagLen;
    RawTagReplaced(source, text, html, 6, 11);
    RawTagReplaced(source, text, html, 6, 13);
  }
}
