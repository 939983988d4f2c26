/** Rewriting image references: edits of a text, and `src` values in raw HTML. One character is one offset. */
module ImageRewrite {
  import opened Common
  import opened Sorting
  import opened TextSearch

  /******* Applying edits *******/

  datatype Edit = Edit(start: nat, end: nat, text: string)

  ghost predicate InBounds(source: string, edits: seq<Edit>) {
    forall i | 0 <= i < |edits| :: edits[i].start <= edits[i].end <= |source|
  }

  /** The edits applied: each one that starts at or behind the end of the last one applied. */
  function Pick(edits: seq<Edit>): (picked: seq<Edit>) {
    if |edits| == 0 then []
    else
      var front, e := Pick(edits[..|edits| - 1]), edits[|edits| - 1];
      if e.start < Reached(front) then front else front + [e]
  }

  function Reached(picked: seq<Edit>): nat {
    if picked == [] then 0 else picked[|picked| - 1].end
  }

  /** The source with a list of ordered edits replaced. */
  function Splice(source: string, edits: seq<Edit>): string
    requires Apart(source, edits)
  {
    SpliceFront(source, edits) + source[Reached(edits)..]
  }

  function SpliceFront(source: string, edits: seq<Edit>): string
    requires Apart(source, edits)
  {
    if |edits| == 0 then ""
    else
      var front, e := edits[..|edits| - 1], edits[|edits| - 1];
      SpliceFront(source, front) + source[Reached(front)..e.start] + e.text
  }

  /** In bounds, in order and without overlap. */
  predicate Apart(source: string, edits: seq<Edit>) {
    && (forall i | 0 <= i < |edits| :: edits[i].start <= edits[i].end <= |source|)
    && (forall i | 0 < i < |edits| :: edits[i - 1].end <= edits[i].start)
  }

  /** The edits in some order of their starts, and the text they turn the source into. */
  ghost predicate IsEdited(source: string, edits: seq<Edit>, sorted: seq<Edit>, output: string) {
    && multiset(sorted) == multiset(edits) && SortedBy(sorted, (e: Edit) => e.start) && InBounds(source, sorted)
    && Apart(source, Pick(sorted)) && output == Splice(source, Pick(sorted))
  }

  method ApplyReplacements(source: string, edits: seq<Edit>) returns (output: string)
    requires InBounds(source, edits)
    ensures exists sorted :: IsEdited(source, edits, sorted, output)
  {
    hide Applied, Pick, Apart, Splice;
    var ordered := SortByKey(edits, (e: Edit) => e.start);
    SameBounds(source, edits, ordered);
    output := "";
    var cursor: nat := 0;
    AppliedNone(source);
    assert ordered[..0] == [];
    for i := 0 to |ordered|
      invariant Applied(source, ordered[..i], cursor, output)
    {
      assert ordered[..i + 1] == ordered[..i] + [ordered[i]];
      var e := ordered[i];
      AppliedStep(source, ordered[..i], e, cursor, output);
      if e.start < cursor { continue; }
      output := output + source[cursor..e.start] + e.text;
      cursor := e.end;
    }
    assert ordered[..|ordered|] == ordered;
    AppliedAll(source, ordered, cursor, output);
    output := output + source[cursor..];
    assert IsEdited(source, edits, ordered, output);
  }

  lemma SameBounds(source: string, edits: seq<Edit>, sorted: seq<Edit>)
    requires InBounds(source, edits) && multiset(sorted) == multiset(edits)
    ensures InBounds(source, sorted)
  {
    forall i | 0 <= i < |sorted| ensures sorted[i].start <= sorted[i].end <= |source| {
      var e := sorted[i];
      assert e in multiset(edits);
      assert e in edits;
    }
  }

  /** What has been written once the edits in `done` were visited. */
  ghost predicate Applied(source: string, done: seq<Edit>, cursor: nat, output: string) {
    && Apart(source, Pick(done)) && cursor == Reached(Pick(done)) <= |source|
    && output == SpliceFront(source, Pick(done))
  }

  lemma AppliedNone(source: string)
    ensures Applied(source, [], 0, "")
  {}

  lemma AppliedStep(source: string, done: seq<Edit>, e: Edit, cursor: nat, output: string)
    requires Applied(source, done, cursor, output) && e.start <= e.end <= |source|
    ensures e.start < cursor ==> Applied(source, done + [e], cursor, output)
    ensures e.start >= cursor ==> Applied(source, done + [e], e.end, output + source[cursor..e.start] + e.text)
  {
    var picked := Pick(done);
    assert (done + [e])[..|done|] == done;
    if e.start >= cursor {
      assert (picked + [e])[..|picked|] == picked;
      assert Pick(done + [e]) == picked + [e];
    }
  }

  lemma AppliedAll(source: string, sorted: seq<Edit>, cursor: nat, output: string)
    requires Applied(source, sorted, cursor, output)
    ensures Apart(source, Pick(sorted)) && cursor <= |source|
            && output + source[cursor..] == Splice(source, Pick(sorted))
  {}

  /** Where the text behind the first `k` edits starts in the output. */
  function OutputAt(edits: seq<Edit>, k: nat): int
    requires k <= |edits|
  {
    if k == 0 then 0
    else OutputAt(edits, k - 1) + (edits[k - 1].start - Reached(edits[..k - 1])) + |edits[k - 1].text|
  }

  lemma {:induction false} FrontLength(source: string, edits: seq<Edit>)
    requires Apart(source, edits)
    ensures |SpliceFront(source, edits)| == OutputAt(edits, |edits|)
  {
    if |edits| > 0 {
      FrontLength(source, edits[..|edits| - 1]);
      OutputPrefix(edits, |edits| - 1, |edits| - 1);
    }
  }

  lemma {:induction false} OutputPrefix(edits: seq<Edit>, n: nat, k: nat)
    requires k <= n <= |edits|
    ensures OutputAt(edits[..n], k) == OutputAt(edits, k)
    decreases k
  {
    if k > 0 {
      OutputPrefix(edits, n, k - 1);
      assert edits[..n][..k - 1] == edits[..k - 1];
    }
  }

  lemma {:induction false} FrontPrefix(source: string, edits: seq<Edit>, k: nat)
    requires Apart(source, edits) && k <= |edits|
    ensures Apart(source, edits[..k]) && SpliceFront(source, edits[..k]) <= SpliceFront(source, edits)
    decreases |edits|
  {
    if k == |edits| {
      assert edits[..k] == edits;
    } else {
      FrontPrefix(source, edits[..|edits| - 1], k);
      assert edits[..|edits| - 1][..k] == edits[..k];
    }
  }

  /** The output up to and including the k-th edit. */
  lemma FrontStep(source: string, edits: seq<Edit>, k: nat)
    requires Apart(source, edits) && k < |edits|
    ensures Apart(source, edits[..k]) && Reached(edits[..k]) <= edits[k].start <= |source|
    ensures var next := SpliceFront(source, edits[..k]) + source[Reached(edits[..k])..edits[k].start] + edits[k].text;
            next <= Splice(source, edits)
  {
    FrontPrefix(source, edits, k);
    FrontPrefix(source, edits, k + 1);
    assert edits[..k + 1][..k] == edits[..k];
  }

  /** Everything between two edits is kept, and each edit's text stands where it belongs. */
  lemma SpliceShape(source: string, edits: seq<Edit>, k: nat)
    requires Apart(source, edits) && k < |edits|
    ensures var output, at, from, to := Splice(source, edits), OutputAt(edits, k), Reached(edits[..k]), edits[k].start;
            && 0 <= at && from <= to <= |source| && at + (to - from) + |edits[k].text| <= |output|
            && output[at..at + (to - from)] == source[from..to]
            && output[at + (to - from)..at + (to - from) + |edits[k].text|] == edits[k].text
  {
    hide SpliceFront, Splice, OutputAt, Reached;
    FrontStep(source, edits, k);
    FrontLength(source, edits[..k]);
    OutputPrefix(edits, k, k);
    assert OutputAt(edits[..k], k) == OutputAt(edits, k);
    Slices(SpliceFront(source, edits[..k]), source[Reached(edits[..k])..edits[k].start], edits[k].text,
           Splice(source, edits));
  }

  /** Behind the last edit the source runs on to its end. */
  lemma SpliceTail(source: string, edits: seq<Edit>)
    requires Apart(source, edits)
    ensures var output, at, from := Splice(source, edits), OutputAt(edits, |edits|), Reached(edits);
            0 <= at && from <= |source| && |output| == at + (|source| - from) && output[at..] == source[from..]
  {
    hide OutputAt, SpliceFront;
    FrontLength(source, edits);
  }

  lemma Slices(a: string, b: string, c: string, output: string)
    requires a + b + c <= output
    ensures |a| + |b| + |c| <= |output|
    ensures output[|a|..|a| + |b|] == b && output[|a| + |b|..|a| + |b| + |c|] == c
  {
    var next := a + b + c;
    assert output[..|next|] == next;
    assert next[|a|..|a| + |b|] == b && next[|a| + |b|..|a| + |b| + |c|] == c;
    assert output[|a|..|a| + |b|] == output[..|next|][|a|..|a| + |b|];
    assert output[|a| + |b|..|a| + |b| + |c|] == output[..|next|][|a| + |b|..|a| + |b| + |c|];
  }

  /** Whether the last of the first `i + 1` edits is applied. */
  predicate Picked(edits: seq<Edit>, i: nat)
    requires i < |edits|
  {
    edits[i].start >= Reached(Pick(edits[..i]))
  }

  /** An edit is applied exactly when no applied edit before it ends behind its start. */
  lemma {:induction false} PickIsGreedy(source: string, edits: seq<Edit>, i: nat)
    requires InBounds(source, edits) && i < |edits|
    ensures Picked(edits, i) <==> forall j | 0 <= j < i && Picked(edits, j) :: edits[j].end <= edits[i].start
  {
    NoneBeyond(source, edits, i);
    ReachedBySome(edits, i);
  }

  /** The reach of the applied edits is the largest end among them: no end lies beyond it. */
  lemma {:induction false} NoneBeyond(source: string, edits: seq<Edit>, n: nat)
    requires InBounds(source, edits) && n <= |edits|
    ensures forall j | 0 <= j < n && Picked(edits, j) :: edits[j].end <= Reached(Pick(edits[..n]))
  {
    hide Pick, Reached, Picked;
    if n > 0 {
      NoneBeyond(source, edits, n - 1);
      ReachedStep(edits, n - 1);
      assert edits[n - 1].start <= edits[n - 1].end;
    }
  }

  /** And some end reaches it, or it is the start. */
  lemma {:induction false} ReachedBySome(edits: seq<Edit>, n: nat)
    requires n <= |edits|
    ensures var reach := Reached(Pick(edits[..n]));
            reach == 0 || exists j :: 0 <= j < n && Picked(edits, j) && edits[j].end == reach
  {
    if n == 0 {
      assert edits[..0] == [];
    } else {
      hide Pick, Reached, Picked;
      ReachedBySome(edits, n - 1);
      ReachedStep(edits, n - 1);
    }
  }

  lemma ReachedStep(edits: seq<Edit>, n: nat)
    requires n < |edits|
    ensures Reached(Pick(edits[..n + 1])) == if Picked(edits, n) then edits[n].end else Reached(Pick(edits[..n]))
    ensures Picked(edits, n) <==> edits[n].start >= Reached(Pick(edits[..n]))
  {
    assert edits[..n + 1][..n] == edits[..n];
  }

  /******* The `src` values of a fragment *******/

  /** Converts a local image reference to a URL; which references it converts is a parameter. */
  type Resolver = string -> Option<string>

  /** A fragment in pieces: text kept as it is, and quoted `src` values. */
  datatype Chunk = Plain(text: string) | Value(quote: char, url: string)

  function Lower(c: char): char {
    if 'A' <= c <= 'Z' then 'a' + (c - 'A') else c
  }

  predicate IsSrc(h: string, p: nat) {
    p + 3 <= |h| && Lower(h[p]) == 's' && Lower(h[p + 1]) == 'r' && Lower(h[p + 2]) == 'c'
  }

  function SkipSpaces(h: string, i: nat): (r: nat)
    requires i <= |h|
    ensures i <= r <= |h| && (r < |h| ==> h[r] != ' ') && forall k | i <= k < r :: h[k] == ' '
    decreases |h| - i
  {
    if i < |h| && h[i] == ' ' then SkipSpaces(h, i + 1) else i
  }

  /** Where the value of a `src =` attribute at `p` starts. */
  function SrcValueAt(h: string, p: nat): (v: Option<nat>)
    ensures v.Some? ==> p + 4 <= v.value <= |h|
  {
    if !IsSrc(h, p) then None
    else
      var c := SkipSpaces(h, p + 3);
      if c < |h| && h[c] == '=' then Some(SkipSpaces(h, c + 1)) else None
  }

  /** A `src` in whatever case, blanks, `=`, blanks: the value begins behind the last of them. */
  lemma AttributeMeans(h: string, p: nat, v: nat)
    ensures SrcValueAt(h, p) == Some(v) <==>
            && p + 3 < v <= |h|
            && h[p] in "sS" && h[p + 1] in "rR" && h[p + 2] in "cC"
            && (exists e :: p + 3 <= e < v && h[e] == '=' && (forall k | p + 3 <= k < v && k != e :: h[k] == ' '))
            && (v < |h| ==> h[v] != ' ')
  {
    if SrcValueAt(h, p) == Some(v) {
      var e := SkipSpaces(h, p + 3);
      assert p + 3 <= e < v && h[e] == '=';
    }
    if && p + 3 < v <= |h| && IsSrc(h, p)
       && exists e :: p + 3 <= e < v && h[e] == '=' && (forall k | p + 3 <= k < v && k != e :: h[k] == ' ') {
      var e :| p + 3 <= e < v && h[e] == '=' && (forall k | p + 3 <= k < v && k != e :: h[k] == ' ');
      SkipsTo(h, p + 3, e);
      if v == |h| || h[v] != ' ' { SkipsTo(h, e + 1, v); }
    }
  }

  lemma {:induction false} SkipsTo(h: string, i: nat, j: nat)
    requires i <= j <= |h| && (forall k | i <= k < j :: h[k] == ' ') && (j < |h| ==> h[j] != ' ')
    ensures SkipSpaces(h, i) == j
    decreases j - i
  {
    if i < j { SkipsTo(h, i + 1, j); }
  }

  /** `v` is the value position of the first `src =` of the fragment. */
  ghost predicate IsFirstSrc(h: string, p: nat, v: nat) {
    SrcValueAt(h, p) == Some(v) && forall q: nat | q < p :: SrcValueAt(h, q).None?
  }

  method FindImgSrc(h: string) returns (r: Option<nat>)
    ensures r.Some? ==> exists p: nat :: IsFirstSrc(h, p, r.value)
    ensures r.None? ==> forall p: nat :: SrcValueAt(h, p).None?
    ensures r == FirstSrc(h)
  {
    var from := 0;
    while from < |h|
      invariant 0 <= from <= |h|
      invariant forall q: nat | q < from :: SrcValueAt(h, q).None?
      decreases |h| - from
    {
      if !IsSrc(h, from) { from := from + 1; continue; }
      var cursor := SkipSpaces(h, from + 3);
      if cursor < |h| && h[cursor] == '=' {
        assert IsFirstSrc(h, from, SkipSpaces(h, cursor + 1));
        FirstSrcIs(h, from, SkipSpaces(h, cursor + 1));
        return Some(SkipSpaces(h, cursor + 1));
      }
      assert SrcValueAt(h, from).None? && !IsSrc(h, from + 1) && !IsSrc(h, from + 2);
      from := from + 3;
    }
    return None;
  }

  /** The value position of the first `src =`, if there is one. */
  ghost function FirstSrc(h: string): (r: Option<nat>)
    ensures r.Some? ==> exists p: nat :: IsFirstSrc(h, p, r.value)
    ensures r.Some? ==> 4 <= r.value <= |h|
  {
    if exists p: nat, v: nat :: IsFirstSrc(h, p, v) then
      var p: nat, v: nat :| IsFirstSrc(h, p, v);
      Some(v)
    else None
  }

  lemma FirstSrcIs(h: string, p: nat, v: nat)
    requires IsFirstSrc(h, p, v)
    ensures FirstSrc(h) == Some(v)
  {
    var r := FirstSrc(h);
    assert r.Some?;
    var q: nat :| IsFirstSrc(h, q, r.value);
    FirstUnique(h, p, v, q, r.value);
  }

  lemma FirstUnique(h: string, p: nat, v: nat, q: nat, w: nat)
    requires IsFirstSrc(h, p, v) && IsFirstSrc(h, q, w)
    ensures p == q && v == w
  {
    assert SrcValueAt(h, p).Some? && SrcValueAt(h, q).Some?;
  }

  /** What the scan does next: stop, step over an unquoted value, or take a quoted one. */
  datatype Cut = Stop | StepOver(next: nat) | Take(at: nat, close: nat)

  ghost function CutOf(rest: string): (cut: Cut)
    ensures cut.StepOver? ==> 0 < cut.next <= |rest|
    ensures cut.Take? ==> cut.at < cut.close < |rest| && rest[cut.at] == rest[cut.close]
  {
    var at := FirstSrc(rest);
    if at.None? then Stop
    else
      var v := at.value;
      if v == |rest| then StepOver(v)
      else if rest[v] != '"' && rest[v] != '\'' then StepOver(v + 1)
      else
        var close := Find(rest, v + 1, rest[v]);
        if close.None? then Stop else Take(v, close.value)
  }

  /** The pieces of a fragment; an unterminated value ends the scan. */
  ghost function Chunks(rest: string): (chunks: seq<Chunk>)
    decreases |rest|
  {
    match CutOf(rest)
    case Stop => [Plain(rest)]
    case StepOver(next) => [Plain(rest[..next])] + Chunks(rest[next..])
    case Take(at, close) => [Plain(rest[..at])] + ([Value(rest[at], rest[at + 1..close])] + Chunks(rest[close + 1..]))
  }

  function RenderChunk(chunk: Chunk, resolve: Resolver): string {
    match chunk
    case Plain(text) => text
    case Value(quote, url) => [quote] + (if resolve(url).Some? then resolve(url).value else url) + [quote]
  }

  /** The fragment with every value that resolves replaced inside its quotes. */
  function Rewritten(chunks: seq<Chunk>, resolve: Resolver): string {
    if chunks == [] then "" else RenderChunk(chunks[0], resolve) + Rewritten(chunks[1..], resolve)
  }

  /** Resolving nothing. */
  const KeepUrls: Resolver := (url: string) => None

  ghost predicate Resolves(chunks: seq<Chunk>, resolve: Resolver) {
    exists k :: 0 <= k < |chunks| && chunks[k].Value? && resolve(chunks[k].url).Some?
  }

  lemma Cons(first: Chunk, tail: seq<Chunk>, resolve: Resolver)
    ensures Rewritten([first] + tail, resolve) == RenderChunk(first, resolve) + Rewritten(tail, resolve)
    ensures Resolves([first] + tail, resolve) <==> (first.Value? && resolve(first.url).Some?) || Resolves(tail, resolve)
  {
    var all := [first] + tail;
    assert all[1..] == tail;
    if Resolves(tail, resolve) {
      var k :| 0 <= k < |tail| && tail[k].Value? && resolve(tail[k].url).Some?;
      assert all[k + 1] == tail[k];
    }
    if first.Value? && resolve(first.url).Some? { assert all[0] == first; }
    if Resolves(all, resolve) {
      var k :| 0 <= k < |all| && all[k].Value? && resolve(all[k].url).Some?;
      if k > 0 { assert all[k] == tail[k - 1]; }
    }
  }

  lemma StopStep(rest: string, resolve: Resolver)
    requires CutOf(rest).Stop?
    ensures Rewritten(Chunks(rest), resolve) == rest && !Resolves(Chunks(rest), resolve)
  {
    hide CutOf, Rewritten, Resolves, RenderChunk;
    Cons(Plain(rest), [], resolve);
    NoChunks(resolve);
    assert [Plain(rest)] + [] == [Plain(rest)];
    PlainText(rest, resolve);
  }

  lemma OverStep(rest: string, next: nat, resolve: Resolver)
    requires CutOf(rest) == StepOver(next)
    ensures Rewritten(Chunks(rest), resolve) == rest[..next] + Rewritten(Chunks(rest[next..]), resolve)
    ensures Resolves(Chunks(rest), resolve) <==> Resolves(Chunks(rest[next..]), resolve)
  {
    hide CutOf, Rewritten, Resolves, RenderChunk;
    Cons(Plain(rest[..next]), Chunks(rest[next..]), resolve);
    PlainText(rest[..next], resolve);
  }

  lemma TakeStep(rest: string, at: nat, close: nat, resolve: Resolver)
    requires CutOf(rest) == Take(at, close)
    ensures var url, tail := rest[at + 1..close], rest[close + 1..];
            && Rewritten(Chunks(rest), resolve)
               == rest[..at] + (RenderChunk(Value(rest[at], url), resolve) + Rewritten(Chunks(tail), resolve))
            && (Resolves(Chunks(rest), resolve) <==> resolve(url).Some? || Resolves(Chunks(tail), resolve))
  {
    hide CutOf, Rewritten, Resolves, RenderChunk;
    var value := Value(rest[at], rest[at + 1..close]);
    Cons(Plain(rest[..at]), [value] + Chunks(rest[close + 1..]), resolve);
    Cons(value, Chunks(rest[close + 1..]), resolve);
    PlainText(rest[..at], resolve);
  }

  lemma NoChunks(resolve: Resolver)
    ensures Rewritten([], resolve) == "" && !Resolves([], resolve)
  {}

  lemma PlainText(text: string, resolve: Resolver)
    ensures RenderChunk(Plain(text), resolve) == text
  {}

  /** One cut of the scan. */
  method NextCut(rest: string) returns (cut: Cut)
    ensures cut == CutOf(rest)
  {
    var at := FindImgSrc(rest);
    if at.None? { return Stop; }
    var v := at.value;
    if v == |rest| { return StepOver(v); }
    if rest[v] != '"' && rest[v] != '\'' { return StepOver(v + 1); }
    var close := Find(rest, v + 1, rest[v]);
    if close.None? { return Stop; }
    return Take(v, close.value);
  }

  /** Rewrites the quoted `src` values that resolve; `None` when there is none. */
  method RewriteHtmlImgSrc(value: string, resolve: Resolver) returns (r: Option<string>)
    ensures r == if Resolves(Chunks(value), resolve) then Some(Rewritten(Chunks(value), resolve)) else None
  {
    hide Resolves, Rewritten, CutOf, Chunks;
    var output, changed, rest := "", false, value;
    assert output + Rewritten(Chunks(rest), resolve) == Rewritten(Chunks(value), resolve);
    while true
      invariant output + Rewritten(Chunks(rest), resolve) == Rewritten(Chunks(value), resolve)
      invariant (changed || Resolves(Chunks(rest), resolve)) <==> Resolves(Chunks(value), resolve)
      decreases |rest|
    {
      var cut := NextCut(rest);
      match cut
      case Stop =>
        StopStep(rest, resolve);
        output := output + rest;
        return if changed then Some(output) else None;
      case StepOver(next) =>
        OverStep(rest, next, resolve);
        Regroup(output, rest[..next], Rewritten(Chunks(rest[next..]), resolve));
        output, rest := output + rest[..next], rest[next..];
      case Take(at, close) =>
        TakeStep(rest, at, close, resolve);
        var url := rest[at + 1..close];
        var quoted := RenderChunk(Value(rest[at], url), resolve);
        Regroup(output, rest[..at], quoted + Rewritten(Chunks(rest[close + 1..]), resolve));
        Regroup(output + rest[..at], quoted, Rewritten(Chunks(rest[close + 1..]), resolve));
        changed := changed || resolve(url).Some?;
        output, rest := output + rest[..at] + quoted, rest[close + 1..];
    }
  }

  lemma Regroup(a: string, b: string, c: string)
    ensures a + (b + c) == a + b + c
  {}

  /** With nothing resolved the pieces put together are the fragment. */
  lemma {:induction false} ChunksAreLossless(rest: string)
    ensures Rewritten(Chunks(rest), KeepUrls) == rest
    decreases |rest|
  {
    hide CutOf, Rewritten, Chunks, Resolves;
    match CutOf(rest)
    case Stop => StopStep(rest, KeepUrls);
    case StepOver(next) =>
      OverStep(rest, next, KeepUrls);
      ChunksAreLossless(rest[next..]);
      assert rest == rest[..next] + rest[next..];
    case Take(at, close) =>
      TakeStep(rest, at, close, KeepUrls);
      ChunksAreLossless(rest[close + 1..]);
      Requote(rest, at, close);
  }

  lemma Requote(rest: string, at: nat, close: nat)
    requires at < close < |rest| && rest[at] == rest[close]
    ensures rest == rest[..at] + (RenderChunk(Value(rest[at], rest[at + 1..close]), KeepUrls) + rest[close + 1..])
  {
    var quoted := RenderChunk(Value(rest[at], rest[at + 1..close]), KeepUrls);
    assert quoted == rest[at..close + 1];
  }

  /** Only values that resolve are changed: any resolver agreeing on them gives the same text. */
  lemma {:induction false} OnlyResolvedChange(chunks: seq<Chunk>, resolve: Resolver)
    requires !Resolves(chunks, resolve)
    ensures Rewritten(chunks, resolve) == Rewritten(chunks, KeepUrls)
  {
    if chunks != [] {
      assert chunks == [chunks[0]] + chunks[1..];
      Cons(chunks[0], chunks[1..], resolve);
      OnlyResolvedChange(chunks[1..], resolve);
    }
  }

  /** `None` loses nothing: the fragment would have come out unchanged. */
  lemma UnresolvedUnchanged(value: string, resolve: Resolver)
    requires !Resolves(Chunks(value), resolve)
    ensures Rewritten(Chunks(value), resolve) == value
  {
    OnlyResolvedChange(Chunks(value), resolve);
    ChunksAreLossless(value);
  }

  /** Some part of the fragment is the quoted value of a `src =`. */
  ghost predicate HasValue(rest: string, chunk: Chunk) {
    exists i: nat, p: nat, v: nat :: i <= |rest| && IsValue(rest[i..], p, v, chunk)
  }

  lemma HasValueSuffix(rest: string, n: nat, chunk: Chunk)
    requires n <= |rest| && HasValue(rest[n..], chunk)
    ensures HasValue(rest, chunk)
  {
    hide IsValue;
    var i: nat, p: nat, v: nat :| i <= |rest[n..]| && IsValue(rest[n..][i..], p, v, chunk);
    assert rest[n..][i..] == rest[n + i..];
  }

  lemma TakeHasValue(rest: string)
    requires CutOf(rest).Take?
    ensures HasValue(rest, Value(rest[CutOf(rest).at], rest[CutOf(rest).at + 1..CutOf(rest).close]))
  {
    hide SrcValueAt, FirstSrc, Find;
    var at, close := CutOf(rest).at, CutOf(rest).close;
    var p: nat :| IsFirstSrc(rest, p, at);
    assert rest[0..] == rest;
    assert IsValue(rest[0..], p, at, Value(rest[at], rest[at + 1..close]));
  }

  /** Every value the scan takes stands between equal quotes directly behind a `src =`. */
  lemma {:induction false} ValuesAreSrc(rest: string, k: nat)
    requires k < |Chunks(rest)| && Chunks(rest)[k].Value?
    ensures HasValue(rest, Chunks(rest)[k])
    decreases |rest|
  {
    hide CutOf, HasValue;
    var cut := CutOf(rest);
    if cut.StepOver? {
      ValuesAreSrc(rest[cut.next..], k - 1);
      HasValueSuffix(rest, cut.next, Chunks(rest)[k]);
    } else if cut.Take? {
      if k == 1 {
        TakeHasValue(rest);
      } else {
        ValuesAreSrc(rest[cut.close + 1..], k - 2);
        HasValueSuffix(rest, cut.close + 1, Chunks(rest)[k]);
      }
    }
  }

  /** The chunk is the quoted value at `v`, which belongs to the `src =` at `p`. */
  ghost predicate IsValue(h: string, p: nat, v: nat, chunk: Chunk) {
    && chunk.Value? && SrcValueAt(h, p) == Some(v) && v + |chunk.url| + 1 < |h|
    && h[v] == chunk.quote && h[v + 1..v + 1 + |chunk.url|] == chunk.url && h[v + 1 + |chunk.url|] == chunk.quote
    && (chunk.quote == '"' || chunk.quote == '\'') && chunk.quote !in chunk.url
  }

  /******* What the scan does not miss *******/

  /** The value at `v` is quoted and closed at `close`. */
  ghost predicate Quoted(h: string, v: nat, close: nat) {
    v < close < |h| && (h[v] == '"' || h[v] == '\'') && h[close] == h[v] && forall k | v < k < close :: h[k] != h[v]
  }

  /** The attribute whose value is at `v` is over before `p`: closed, or not quoted. */
  ghost predicate OverBefore(h: string, v: nat, p: nat) {
    || (exists close: nat :: close < p && Quoted(h, v, close))
    || (v < p && v < |h| && h[v] != '"' && h[v] != '\'')
  }

  /** Every attribute in front of `p` is over before `p`. */
  ghost predicate ClearBefore(h: string, p: nat) {
    forall q: nat | q < p && SrcValueAt(h, q).Some? :: OverBefore(h, SrcValueAt(h, q).value, p)
  }

  lemma {:induction false} SkipShift(h: string, n: nat, i: nat)
    requires n + i <= |h|
    ensures SkipSpaces(h[n..], i) + n == SkipSpaces(h, i + n)
    decreases |h| - i
  {
    if n + i < |h| && h[n + i] == ' ' { SkipShift(h, n, i + 1); }
  }

  /** Attributes keep their places when a prefix is cut off. */
  lemma AttributeShift(h: string, n: nat, p: nat)
    requires n <= |h|
    ensures SrcValueAt(h[n..], p).Some? <==> SrcValueAt(h, p + n).Some?
    ensures SrcValueAt(h[n..], p).Some? ==> SrcValueAt(h[n..], p).value + n == SrcValueAt(h, p + n).value
  {
    if IsSrc(h, p + n) {
      SkipShift(h, n, p + 3);
      var c := SkipSpaces(h, p + n + 3);
      if c < |h| { SkipShift(h, n, c - n + 1); }
    }
  }

  lemma QuotedSuffix(h: string, n: nat, t: string, v: nat, close: nat)
    requires n <= |h| && t == h[n..] && Quoted(h, v + n, close + n)
    ensures Quoted(t, v, close)
  {
    assert t[v] == h[v + n] && t[close] == h[close + n];
    forall k | v < k < close ensures t[k] != t[v] { var j := k + n; assert h[j] != h[v + n] && t[k] == h[j]; }
  }

  lemma QuotedShift(h: string, n: nat, v: nat, close: nat)
    requires n <= |h|
    ensures Quoted(h[n..], v, close) <==> Quoted(h, v + n, close + n)
  {
    var t := h[n..];
    if Quoted(t, v, close) {
      forall k | v + n < k < close + n ensures h[k] != h[v + n] { assert t[k - n] != t[v]; }
    }
    if Quoted(h, v + n, close + n) { QuotedSuffix(h, n, t, v, close); }
  }

  lemma OverShift(h: string, n: nat, v: nat, p: nat)
    requires n <= |h| && OverBefore(h, v + n, p + n)
    ensures OverBefore(h[n..], v, p)
  {
    var w := v + n;
    if close: nat :| close < p + n && Quoted(h, w, close) { QuotedShift(h, n, v, close - n); }
  }

  lemma ClearShift(h: string, n: nat, p: nat)
    requires n <= |h| && ClearBefore(h, p + n)
    ensures ClearBefore(h[n..], p)
  {
    hide OverBefore, SrcValueAt;
    forall q: nat | q < p && SrcValueAt(h[n..], q).Some? ensures OverBefore(h[n..], SrcValueAt(h[n..], q).value, p) {
      AttributeShift(h, n, q);
      OverShift(h, n, SrcValueAt(h[n..], q).value, p);
    }
  }

  /** The offset of a chunk in the fragment. */
  function Offset(chunks: seq<Chunk>, k: nat): nat
    requires k <= |chunks|
  {
    if k == 0 then 0
    else (if chunks[0].Plain? then |chunks[0].text| else |chunks[0].url| + 2) + Offset(chunks[1..], k - 1)
  }

  lemma OffsetMore(first: Chunk, tail: seq<Chunk>, k: nat)
    requires k <= |tail|
    ensures Offset([first] + tail, k + 1)
            == (if first.Plain? then |first.text| else |first.url| + 2) + Offset(tail, k)
  {
    assert ([first] + tail)[1..] == tail;
  }

  lemma FirstAttribute(rest: string, p: nat) returns (first: nat)
    requires SrcValueAt(rest, p).Some?
    ensures first <= p && SrcValueAt(rest, first).Some? && FirstSrc(rest) == SrcValueAt(rest, first)
    ensures forall q: nat | q < first :: SrcValueAt(rest, q).None?
  {
    hide SrcValueAt;
    first := 0;
    while SrcValueAt(rest, first).None?
      invariant first <= p && forall q: nat | q < first :: SrcValueAt(rest, q).None?
      decreases p - first
    {
      first := first + 1;
    }
    FirstSrcIs(rest, first, SrcValueAt(rest, first).value);
  }

  lemma QuotedFound(h: string, v: nat, close: nat)
    requires Quoted(h, v, close)
    ensures Find(h, v + 1, h[v]) == Some(close)
  {
    var found := Find(h, v + 1, h[v]);
    assert found.Some?;
  }

  lemma TakenCut(rest: string, v: nat, close: nat)
    requires FirstSrc(rest) == Some(v) && Quoted(rest, v, close)
    ensures CutOf(rest) == Take(v, close)
  {
    hide FirstSrc;
    QuotedFound(rest, v, close);
  }

  lemma SteppedCut(rest: string, v: nat)
    requires FirstSrc(rest) == Some(v) && v < |rest| && rest[v] != '"' && rest[v] != '\''
    ensures CutOf(rest) == StepOver(v + 1)
  {
    hide FirstSrc, Find;
  }

  /** The chunks behind a taken value, or behind a stretch stepped over, are those of the rest. */
  lemma BehindTake(rest: string, at: nat, close: nat, k: nat)
    requires CutOf(rest) == Take(at, close) && k <= |Chunks(rest[close + 1..])|
    ensures |Chunks(rest)| == |Chunks(rest[close + 1..])| + 2 && Chunks(rest)[1] == Value(rest[at], rest[at + 1..close])
    ensures Offset(Chunks(rest), 1) == at
    ensures Offset(Chunks(rest), k + 2) == close + 1 + Offset(Chunks(rest[close + 1..]), k)
    ensures k < |Chunks(rest[close + 1..])| ==> Chunks(rest)[k + 2] == Chunks(rest[close + 1..])[k]
  {
    hide CutOf, Offset;
    var value, tail := Value(rest[at], rest[at + 1..close]), Chunks(rest[close + 1..]);
    assert Chunks(rest) == [Plain(rest[..at])] + ([value] + tail);
    hide Chunks;
    OffsetNone([value] + tail);
    OffsetMore(Plain(rest[..at]), [value] + tail, 0);
    OffsetMore(value, tail, k);
    OffsetMore(Plain(rest[..at]), [value] + tail, k + 1);
  }

  lemma BehindStep(rest: string, n: nat, k: nat)
    requires CutOf(rest) == StepOver(n) && k < |Chunks(rest[n..])|
    ensures |Chunks(rest)| == |Chunks(rest[n..])| + 1 && Chunks(rest)[k + 1] == Chunks(rest[n..])[k]
    ensures Offset(Chunks(rest), k + 1) == n + Offset(Chunks(rest[n..]), k)
  {
    hide CutOf, Offset;
    var tail := Chunks(rest[n..]);
    assert Chunks(rest) == [Plain(rest[..n])] + tail;
    hide Chunks;
    OffsetMore(Plain(rest[..n]), tail, k);
  }

  lemma OffsetNone(chunks: seq<Chunk>)
    ensures Offset(chunks, 0) == 0
  {}

  /**
   Every `src` value in equal quotes is taken at its place, unless an attribute in front
   of it is still open there: never closed, or with this one inside its value.
   */
  lemma {:induction false} ValueTaken(rest: string, p: nat, v: nat, close: nat) returns (k: nat)
    requires SrcValueAt(rest, p) == Some(v) && Quoted(rest, v, close) && ClearBefore(rest, p)
    ensures k < |Chunks(rest)| && Chunks(rest)[k] == Value(rest[v], rest[v + 1..close]) && Offset(Chunks(rest), k) == v
    decreases |rest|
  {
    hide CutOf, Chunks, SrcValueAt, FirstSrc, Find, Offset;
    var first := FirstAttribute(rest, p);
    var w := SrcValueAt(rest, first).value;
    if first == p {
      TakenCut(rest, v, close);
      BehindTake(rest, v, close, 0);
      k := 1;
    } else {
      assert OverBefore(rest, w, p);
      hide ClearBefore;
      if end: nat :| end < p && Quoted(rest, w, end) {
        TakenCut(rest, w, end);
        Shifted(rest, end + 1, p, v, close);
        hide Quoted, OverBefore;
        k := ValueTaken(rest[end + 1..], p - end - 1, v - end - 1, close - end - 1);
        BehindTake(rest, w, end, k);
        k := k + 2;
      } else {
        SteppedCut(rest, w);
        Shifted(rest, w + 1, p, v, close);
        hide Quoted, OverBefore;
        k := ValueTaken(rest[w + 1..], p - w - 1, v - w - 1, close - w - 1);
        BehindStep(rest, w + 1, k);
        k := k + 1;
      }
    }
  }

  lemma SliceOfSuffix(rest: string, n: nat, i: nat, j: nat)
    requires n <= i <= j <= |rest|
    ensures rest[n..][i - n..j - n] == rest[i..j]
  {}

  lemma Shifted(rest: string, n: nat, p: nat, v: nat, close: nat)
    requires n <= p && n <= |rest| && SrcValueAt(rest, p) == Some(v) && Quoted(rest, v, close) && ClearBefore(rest, p)
    ensures n <= v && SrcValueAt(rest[n..], p - n) == Some(v - n) && Quoted(rest[n..], v - n, close - n)
    ensures ClearBefore(rest[n..], p - n)
    ensures rest[n..][v - n] == rest[v] && rest[n..][v - n + 1..close - n] == rest[v + 1..close]
  {
    hide ClearBefore;
    assert n <= v by { AttributeMeans(rest, p, v); }
    hide SrcValueAt;
    AttributeShift(rest, n, p - n);
    QuotedShift(rest, n, v - n, close - n);
    ClearShift(rest, n, p - n);
    SliceOfSuffix(rest, n, v + 1, close);
  }
}
