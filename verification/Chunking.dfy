/** Cutting a document at headings or definitions: agentflow/knowledge/chunking.py.  Where the regular
    expressions match is a parameter, and so is the external text splitter. */
module Chunking {

  import opened Text

  /** One match of the boundary pattern, as offsets. */
  datatype Match = Match(start: nat, end: nat)

  datatype Section = Section(heading: string, body: string)

  type Splitter = string -> seq<string>

  /** Matches come in order, do not overlap, and begin with a visible character. */
  ghost predicate Matches(text: string, ms: seq<Match>) {
    && (forall i :: 0 <= i < |ms| ==> ms[i].start < ms[i].end <= |text| && !IsSpace(text[ms[i].start]))
    && (forall i, j :: 0 <= i < j < |ms| ==> ms[i].end <= ms[j].start)
  }

  function Concat(xs: seq<string>): string {
    if xs == [] then "" else xs[0] + Concat(xs[1..])
  }

  lemma {:induction false} ConcatOver(a: seq<string>, b: seq<string>)
    ensures Concat(a + b) == Concat(a) + Concat(b)
  {
    if a == [] {
      assert a + b == b;
    } else {
      ConcatOver(a[1..], b);
      assert (a + b)[1..] == a[1..] + b && (a + b)[0] == a[0];
      assert a[0] + (Concat(a[1..]) + Concat(b)) == (a[0] + Concat(a[1..])) + Concat(b);
    }
  }

  // ---------------------------------------------------------------- code boundaries

  function Headed(heading: string, body: string): seq<Section> {
    if body == "" then [] else [Section(heading, body)]
  }

  /** Where the part that starts at match `i` ends. */
  function Until(text: string, ms: seq<Match>, i: nat): nat {
    if i + 1 < |ms| then ms[i + 1].start else |text|
  }

  /** The matched text itself. */
  function HeadingLine(text: string, ms: seq<Match>, i: nat): string
    requires Matches(text, ms) && i < |ms|
  {
    text[ms[i].start..ms[i].end]
  }

  /** The text from match `i` to the next one. */
  function From(text: string, ms: seq<Match>, i: nat): string
    requires Matches(text, ms) && i < |ms|
  {
    text[ms[i].start..Until(text, ms, i)]
  }

  function CodeSections(text: string, ms: seq<Match>, n: nat): seq<Section>
    requires Matches(text, ms) && n <= |ms|
  {
    if n == 0 then if ms == [] then [] else Headed("", RStrip(text[..ms[0].start]))
    else CodeSections(text, ms, n - 1) + Headed(HeadingLine(text, ms, n - 1), RStrip(From(text, ms, n - 1)))
  }

  /** `_split_by_code_boundary`. */
  function SplitByCodeBoundary(text: string, ms: seq<Match>): seq<Section>
    requires Matches(text, ms)
  {
    if ms == [] then [Section("", text)] else CodeSections(text, ms, |ms|)
  }

  lemma CodeSectionsStart(text: string, ms: seq<Match>)
    requires Matches(text, ms) && ms != []
    ensures CodeSections(text, ms, 0) == [] + Headed("", RStrip(text[..ms[0].start]))
    ensures ms[0].start == 0 ==> CodeSections(text, ms, 0) == []
    ensures SplitByCodeBoundary(text, ms) == CodeSections(text, ms, |ms|)
  {
    EmptyStaysEmpty();
  }

  /** A section is only kept if something stands in it. */
  method Append(sections: seq<Section>, heading: string, body: string) returns (r: seq<Section>)
    ensures r == sections + Headed(heading, body)
  {
    r := sections;
    if body != "" {
      r := r + [Section(heading, body)];
    }
  }

  method SplitCode(text: string, ms: seq<Match>) returns (sections: seq<Section>)
    requires Matches(text, ms)
    ensures sections == SplitByCodeBoundary(text, ms)
  {
    if ms == [] {
      return [Section("", text)];
    }
    CodeSectionsStart(text, ms);
    hide IsSpace, RStrip, HeadingLine, From, Headed, SplitByCodeBoundary;
    sections := [];
    if ms[0].start > 0 {
      sections := Append(sections, "", RStrip(text[..ms[0].start]));
    }
    for i := 0 to |ms|
      invariant sections == CodeSections(text, ms, i)
    {
      sections := Append(sections, HeadingLine(text, ms, i), RStrip(From(text, ms, i)));
    }
  }

  /** `body` stands at `i`, and only white space after it. */
  ghost predicate EndsAt(text: string, i: nat, body: string) {
    i + |body| <= |text| && text[i..i + |body|] == body && Blank(text[i + |body|..])
  }

  /** The bodies are slices of the text in order, with nothing but white space before, between and after. */
  ghost predicate Tiles(text: string, sections: seq<Section>)
    decreases |sections|
  {
    if sections == [] then Blank(text)
    else exists i: nat :: EndsAt(text, i, sections[|sections| - 1].body) && Tiles(text[..i], sections[..|sections| - 1])
  }

  lemma TilesExtended(text: string, tail: string, sections: seq<Section>, heading: string)
    requires Tiles(text, sections)
    ensures Tiles(text + tail, sections + Headed(heading, RStrip(tail)))
  {
    RStripShape(tail);
    hide IsSpace, Blank, RStrip;
    var body := RStrip(tail);
    if body == "" {
      assert tail[0..] == tail;
      TilesBlank(text, tail, sections);
      assert sections + Headed(heading, body) == sections;
    } else {
      var whole, i := text + tail, |text|;
      var all := sections + [Section(heading, body)];
      assert whole[i..i + |body|] == tail[..|body|] == body;
      assert whole[i + |body|..] == tail[|body|..];
      assert EndsAt(whole, i, body);
      assert whole[..i] == text && all[..|all| - 1] == sections;
    }
  }

  lemma TilesBlank(text: string, tail: string, sections: seq<Section>)
    requires Tiles(text, sections) && Blank(tail)
    ensures Tiles(text + tail, sections)
  {
    if sections == [] {
      BlankOver(text, tail);
    } else {
      hide IsSpace, Blank, EndsAt;
      var last := sections[|sections| - 1].body;
      var i: nat :| EndsAt(text, i, last) && Tiles(text[..i], sections[..|sections| - 1]);
      EndsAtStill(text, tail, i, last);
      assert EndsAt(text + tail, i, last) && (text + tail)[..i] == text[..i];
    }
  }

  lemma EndsAtStill(text: string, tail: string, i: nat, last: string)
    requires EndsAt(text, i, last) && Blank(tail)
    ensures i <= |text| && EndsAt(text + tail, i, last) && (text + tail)[..i] == text[..i]
  {
    var whole := text + tail;
    BlankOver(text[i + |last|..], tail);
    hide IsSpace, Blank;
    assert whole[i + |last|..] == text[i + |last|..] + tail;
    assert whole[i..i + |last|] == text[i..i + |last|];
  }

  /** Where the first `n` parts of the text end. */
  function Reach(text: string, ms: seq<Match>, n: nat): nat
    requires n <= |ms| && ms != []
  {
    if n == 0 then ms[0].start else Until(text, ms, n - 1)
  }

  lemma ReachGrows(text: string, ms: seq<Match>, n: nat)
    requires Matches(text, ms) && n < |ms|
    ensures Reach(text, ms, n) == ms[n].start < Reach(text, ms, n + 1) == Until(text, ms, n) <= |text|
    ensures text[..ms[n].start] + From(text, ms, n) == text[..Until(text, ms, n)]
  {
    hide IsSpace;
  }

  lemma {:induction false} CodeSectionsTile(text: string, ms: seq<Match>, n: nat)
    requires Matches(text, ms) && ms != [] && n <= |ms|
    ensures Reach(text, ms, n) <= |text| && Tiles(text[..Reach(text, ms, n)], CodeSections(text, ms, n))
  {
    hide Tiles, IsSpace, Blank, RStrip;
    if n == 0 {
      PreambleTiles(text[..ms[0].start]);
    } else {
      ReachGrows(text, ms, n - 1);
      CodeSectionsTile(text, ms, n - 1);
      TilesExtended(text[..ms[n - 1].start], From(text, ms, n - 1), CodeSections(text, ms, n - 1),
                    HeadingLine(text, ms, n - 1));
    }
  }

  lemma PreambleTiles(start: string)
    ensures Tiles(start, Headed("", RStrip(start)))
  {
    hide RStrip, IsSpace;
    TilesExtended("", start, [], "");
    assert "" + start == start;
    assert [] + Headed("", RStrip(start)) == Headed("", RStrip(start));
  }

  function Bodies(sections: seq<Section>): (r: seq<string>)
    ensures |r| == |sections| && forall i :: 0 <= i < |r| ==> r[i] == sections[i].body
  {
    seq(|sections|, i requires 0 <= i < |sections| => sections[i].body)
  }

  lemma {:induction false} TilesKeepInk(text: string, sections: seq<Section>)
    requires Tiles(text, sections)
    ensures NonSpace(Concat(Bodies(sections))) == NonSpace(text)
    decreases |sections|
  {
    hide IsSpace, Blank, NonSpace;
    if sections == [] {
      BlankHasNothing(text);
      BlankHasNothing("");
      EmptyStaysEmpty();
    } else {
      var front, last := sections[..|sections| - 1], sections[|sections| - 1].body;
      var i: nat :| EndsAt(text, i, last) && Tiles(text[..i], front);
      TilesKeepInk(text[..i], front);
      BodiesSnoc(front, sections[|sections| - 1]);
      assert front + [sections[|sections| - 1]] == sections;
      NonSpaceAppend(Concat(Bodies(front)), last);
      EndInk(text, i, last);
    }
  }

  lemma BodiesSnoc(front: seq<Section>, last: Section)
    ensures Concat(Bodies(front + [last])) == Concat(Bodies(front)) + last.body
  {
    assert Bodies(front + [last]) == Bodies(front) + [last.body];
    ConcatOver(Bodies(front), [last.body]);
    assert Concat([last.body]) == last.body;
  }

  lemma EndInk(text: string, i: nat, body: string)
    requires EndsAt(text, i, body)
    ensures NonSpace(text) == NonSpace(text[..i]) + NonSpace(body)
  {
    hide IsSpace, Blank, NonSpace;
    var rest := text[i + |body|..];
    assert text == text[..i] + body + rest;
    NonSpaceAppend(text[..i] + body, rest);
    NonSpaceAppend(text[..i], body);
    BlankHasNothing(rest);
  }

  /** Main result: for any matches, the bodies tile the text, so every visible character is kept, in order. */
  lemma CodeSplitTiles(text: string, ms: seq<Match>)
    requires Matches(text, ms)
    ensures Tiles(text, SplitByCodeBoundary(text, ms))
    ensures NonSpace(Concat(Bodies(SplitByCodeBoundary(text, ms)))) == NonSpace(text)
  {
    var sections := SplitByCodeBoundary(text, ms);
    if ms == [] {
      assert EndsAt(text, 0, text) && text[..0] == "" && sections[..0] == [];
      assert Tiles(text[..0], sections[..0]);
    } else {
      CodeSectionsTile(text, ms, |ms|);
      assert text[..|text|] == text;
    }
    TilesKeepInk(text, sections);
  }

  // ---------------------------------------------------------------- chunks of code

  function PiecesOf(body: string, chunkSize: int, splitter: Splitter): seq<string> {
    if |body| <= chunkSize then [body] else splitter(body)
  }

  function CodePieces(sections: seq<Section>, chunkSize: int, splitter: Splitter): seq<string> {
    if sections == [] then []
    else
      CodePieces(sections[..|sections| - 1], chunkSize, splitter)
      + PiecesOf(sections[|sections| - 1].body, chunkSize, splitter)
  }

  function CodeChunks(text: string, ms: seq<Match>, chunkSize: int, splitter: Splitter): seq<string>
    requires Matches(text, ms)
  {
    if Strip(text) == "" then [] else CodePieces(SplitByCodeBoundary(text, ms), chunkSize, splitter)
  }

  /** `chunk_by_code`. */
  method ChunkByCode(text: string, ms: seq<Match>, chunkSize: int, splitter: Splitter) returns (chunks: seq<string>)
    requires Matches(text, ms)
    ensures chunks == CodeChunks(text, ms, chunkSize, splitter)
  {
    if Strip(text) == "" {
      return [];
    }
    var sections := SplitCode(text, ms);
    chunks := ChunkBodies(sections, chunkSize, splitter);
  }

  method ChunkBodies(sections: seq<Section>, chunkSize: int, splitter: Splitter) returns (chunks: seq<string>)
    ensures chunks == CodePieces(sections, chunkSize, splitter)
  {
    chunks := [];
    for i := 0 to |sections|
      invariant chunks == CodePieces(sections[..i], chunkSize, splitter)
    {
      assert sections[..i + 1][..i] == sections[..i];
      var body := sections[i].body;
      if |body| <= chunkSize {
        chunks := chunks + [body];
      } else {
        chunks := chunks + splitter(body);
      }
    }
    assert sections[..|sections|] == sections;
  }

  /** The pieces show everything visible of the body, in order and nothing twice. */
  ghost predicate Kept(body: string, pieces: seq<string>) {
    NonSpace(Concat(pieces)) == NonSpace(body)
  }

  /** `a` is no longer than `b`, or no shorter. */
  predicate OnSide(longer: bool, a: string, b: string) {
    if longer then |a| >= |b| else |a| <= |b|
  }

  /** For every section too long for one chunk the pieces show at least as much as the body does, as those
      of a splitter with overlap, or for every one at most as much, as without overlap. */
  ghost predicate OneSided(longer: bool, sections: seq<Section>, chunkSize: int, splitter: Splitter) {
    forall s :: s in sections && |s.body| > chunkSize ==>
      OnSide(longer, NonSpace(Concat(splitter(s.body))), NonSpace(s.body))
  }

  /** Every section too long for one chunk is split without losing or repeating anything. */
  ghost predicate SplitsFaithfully(sections: seq<Section>, chunkSize: int, splitter: Splitter) {
    forall s :: s in sections && |s.body| > chunkSize ==> Kept(s.body, splitter(s.body))
  }

  lemma EqualTogether(longer: bool, a: string, b: string, x: string, y: string)
    requires OnSide(longer, a, x) && OnSide(longer, b, y)
    ensures OnSide(longer, a + b, x + y)
    ensures a + b == x + y <==> a == x && b == y
  {
    if a + b == x + y {
      assert |a| == |x|;
      assert a == (a + b)[..|a|] && x == (x + y)[..|a|];
      assert b == (a + b)[|a|..] && y == (x + y)[|a|..];
    }
  }

  lemma {:induction false} PiecesInk(longer: bool, sections: seq<Section>, chunkSize: int, splitter: Splitter)
    requires OneSided(longer, sections, chunkSize, splitter)
    ensures var pieces, bodies := CodePieces(sections, chunkSize, splitter), Bodies(sections);
            && OnSide(longer, NonSpace(Concat(pieces)), NonSpace(Concat(bodies)))
            && (NonSpace(Concat(pieces)) == NonSpace(Concat(bodies))
                <==> SplitsFaithfully(sections, chunkSize, splitter))
  {
    hide NonSpace, PiecesOf, Kept;
    if sections != [] {
      var front, last := sections[..|sections| - 1], sections[|sections| - 1];
      assert front + [last] == sections && last in sections;
      var pieces := PiecesOf(last.body, chunkSize, splitter);
      PiecesInk(longer, front, chunkSize, splitter);
      BodiesSnoc(front, last);
      ConcatOver(CodePieces(front, chunkSize, splitter), pieces);
      LastPiecesInk(longer, last.body, chunkSize, splitter);
      NonSpaceAppend(Concat(Bodies(front)), last.body);
      NonSpaceAppend(Concat(CodePieces(front, chunkSize, splitter)), Concat(pieces));
      EqualTogether(longer, NonSpace(Concat(CodePieces(front, chunkSize, splitter))), NonSpace(Concat(pieces)),
                    NonSpace(Concat(Bodies(front))), NonSpace(last.body));
    }
  }

  lemma LastPiecesInk(longer: bool, body: string, chunkSize: int, splitter: Splitter)
    requires |body| > chunkSize ==> OnSide(longer, NonSpace(Concat(splitter(body))), NonSpace(body))
    ensures var pieces := PiecesOf(body, chunkSize, splitter);
            && OnSide(longer, NonSpace(Concat(pieces)), NonSpace(body))
            && (NonSpace(Concat(pieces)) == NonSpace(body) <==> |body| <= chunkSize || Kept(body, splitter(body)))
  {
    assert Concat([body]) == body;
  }

  /** With or without overlap, the chunks of code show every visible character of the text, in order and
      once, exactly when the text is blank or the splitter does so for each section too long for a chunk. */
  lemma CodeChunksKeepInkIff(longer: bool, text: string, ms: seq<Match>, chunkSize: int, splitter: Splitter)
    requires Matches(text, ms) && OneSided(longer, SplitByCodeBoundary(text, ms), chunkSize, splitter)
    ensures Kept(text, CodeChunks(text, ms, chunkSize, splitter))
        <==> Strip(text) == "" || SplitsFaithfully(SplitByCodeBoundary(text, ms), chunkSize, splitter)
    ensures !longer && Strip(text) == "" ==> SplitsFaithfully(SplitByCodeBoundary(text, ms), chunkSize, splitter)
  {
    var sections := SplitByCodeBoundary(text, ms);
    StripKeepsInk(text);
    CodeSplitTiles(text, ms);
    PiecesInk(longer, sections, chunkSize, splitter);
    hide SplitByCodeBoundary, CodePieces, SplitsFaithfully, OneSided, Strip, Bodies, Tiles, Matches, Blank;
    assert Strip(text) == "" ==> NonSpace(text) == "" && Concat([]) == "";
  }

  /** Everything visible of `a` is shown by `b` in the same order, perhaps with more in between. */
  predicate Within(a: string, b: string) {
    if a == "" then true
    else if b == "" then false
    else if a[0] == b[0] then Within(a[1..], b[1..])
    else Within(a, b[1..])
  }

  lemma {:induction false} WithinLonger(a: string, b: string, front: string)
    requires Within(a, b)
    ensures Within(a, front + b)
    ensures a != "" ==> Within(a[1..], b)
  {
    if a != "" {
      WithinTail(a, b);
    }
    if front == "" {
      assert front + b == b;
    } else {
      assert (front + b)[1..] == front[1..] + b;
      if a != "" {
        WithinLonger(if a[0] == front[0] then a[1..] else a, b, front[1..]);
      }
    }
  }

  lemma {:induction false} WithinTail(a: string, b: string)
    requires a != "" && Within(a, b)
    ensures Within(a[1..], b)
    decreases |b|
  {
    if a[0] != b[0] {
      WithinTail(a, b[1..]);
    }
    if |a| > 1 && a[1] == b[0] {
      WithinTail(a[1..], b[1..]);
    }
  }

  lemma {:induction false} WithinOver(a: string, b: string, x: string, y: string)
    requires Within(a, x) && Within(b, y)
    ensures Within(a + b, x + y)
  {
    if a == "" {
      assert a + b == b;
      WithinLonger(b, y, x);
    } else {
      assert (a + b)[1..] == a[1..] + b && (x + y)[1..] == x[1..] + y;
      WithinOver(if a[0] == x[0] then a[1..] else a, b, x[1..], y);
    }
  }

  lemma {:induction false} WithinItself(a: string)
    ensures Within(a, a)
  {
    if a != "" {
      WithinItself(a[1..]);
    }
  }

  /** The pieces show everything visible of the body, as those of a splitter with overlap. */
  ghost predicate Covered(body: string, pieces: seq<string>) {
    Within(NonSpace(body), NonSpace(Concat(pieces)))
  }

  lemma {:induction false} PiecesCover(sections: seq<Section>, chunkSize: int, splitter: Splitter)
    requires forall s :: s in sections && |s.body| > chunkSize ==> Covered(s.body, splitter(s.body))
    ensures Within(NonSpace(Concat(Bodies(sections))), NonSpace(Concat(CodePieces(sections, chunkSize, splitter))))
  {
    hide NonSpace, PiecesOf, Within;
    if sections == [] {
      WithinItself(NonSpace(""));
    } else {
      var front, last := sections[..|sections| - 1], sections[|sections| - 1];
      assert front + [last] == sections && last in sections;
      var pieces := PiecesOf(last.body, chunkSize, splitter);
      PiecesCover(front, chunkSize, splitter);
      BodiesSnoc(front, last);
      ConcatOver(CodePieces(front, chunkSize, splitter), pieces);
      LastPiecesCover(last.body, chunkSize, splitter);
      NonSpaceAppend(Concat(Bodies(front)), last.body);
      NonSpaceAppend(Concat(CodePieces(front, chunkSize, splitter)), Concat(pieces));
      WithinOver(NonSpace(Concat(Bodies(front))), NonSpace(last.body),
                 NonSpace(Concat(CodePieces(front, chunkSize, splitter))), NonSpace(Concat(pieces)));
    }
  }

  lemma LastPiecesCover(body: string, chunkSize: int, splitter: Splitter)
    requires |body| > chunkSize ==> Covered(body, splitter(body))
    ensures Covered(body, PiecesOf(body, chunkSize, splitter))
  {
    assert Concat([body]) == body;
    WithinItself(NonSpace(body));
  }

  /** Chunks that overlap still show every visible character of the text, in order. */
  lemma CodeChunksCover(text: string, ms: seq<Match>, chunkSize: int, splitter: Splitter)
    requires Matches(text, ms)
    requires forall s :: s in SplitByCodeBoundary(text, ms) && |s.body| > chunkSize
                         ==> Covered(s.body, splitter(s.body))
    ensures Covered(text, CodeChunks(text, ms, chunkSize, splitter))
  {
    StripKeepsInk(text);
    CodeSplitTiles(text, ms);
    PiecesCover(SplitByCodeBoundary(text, ms), chunkSize, splitter);
    hide Matches;
  }

  // ---------------------------------------------------------------- headings

  /** What stands under heading `i`. */
  function Under(text: string, ms: seq<Match>, i: nat): string
    requires Matches(text, ms) && i < |ms|
  {
    text[ms[i].end..Until(text, ms, i)]
  }

  function HeadingSections(text: string, ms: seq<Match>, n: nat): seq<Section>
    requires Matches(text, ms) && n <= |ms|
  {
    if n == 0 then if ms == [] then [] else Headed("", Strip(text[..ms[0].start]))
    else HeadingSections(text, ms, n - 1) + Headed(HeadingLine(text, ms, n - 1), Strip(Under(text, ms, n - 1)))
  }

  /** `_split_by_heading`. */
  function SplitByHeading(text: string, ms: seq<Match>): seq<Section>
    requires Matches(text, ms)
  {
    if ms == [] then [Section("", text)] else HeadingSections(text, ms, |ms|)
  }

  lemma HeadingSectionsStart(text: string, ms: seq<Match>)
    requires Matches(text, ms) && ms != []
    ensures ms[0].start <= |text|
    ensures HeadingSections(text, ms, 0) == [] + Headed("", Strip(text[..ms[0].start]))
    ensures ms[0].start == 0 ==> HeadingSections(text, ms, 0) == []
    ensures SplitByHeading(text, ms) == HeadingSections(text, ms, |ms|)
  {
    EmptyStaysEmpty();
  }

  lemma HeadingSectionsNext(text: string, ms: seq<Match>, n: nat)
    requires Matches(text, ms) && n < |ms|
    ensures HeadingSections(text, ms, n + 1)
         == HeadingSections(text, ms, n) + Headed(HeadingLine(text, ms, n), Strip(Under(text, ms, n)))
  {
  }

  method SplitHeadings(text: string, ms: seq<Match>) returns (sections: seq<Section>)
    requires Matches(text, ms)
    ensures sections == SplitByHeading(text, ms)
  {
    if ms == [] {
      return [Section("", text)];
    }
    HeadingSectionsStart(text, ms);
    hide *;
    sections := [];
    if ms[0].start > 0 {
      sections := Append(sections, "", Strip(text[..ms[0].start]));
    }
    for i := 0 to |ms|
      invariant sections == HeadingSections(text, ms, i)
    {
      HeadingSectionsNext(text, ms, i);
      sections := Append(sections, HeadingLine(text, ms, i), Strip(Under(text, ms, i)));
    }
  }

  /** All text of the sections, headings included. */
  function AllText(sections: seq<Section>): string {
    if sections == [] then ""
    else AllText(sections[..|sections| - 1]) + sections[|sections| - 1].heading + sections[|sections| - 1].body
  }

  /** Visible characters in headings that lead nowhere. */
  function LostInk(text: string, ms: seq<Match>, n: nat): nat
    requires Matches(text, ms) && n <= |ms|
  {
    if n == 0 then 0
    else
      LostInk(text, ms, n - 1)
      + if Strip(Under(text, ms, n - 1)) == "" then |NonSpace(HeadingLine(text, ms, n - 1))| else 0
  }

  lemma HeadedInk(sections: seq<Section>, heading: string, body: string)
    ensures NonSpace(AllText(sections + Headed(heading, body)))
         == NonSpace(AllText(sections)) + if body == "" then "" else NonSpace(heading) + NonSpace(body)
  {
    hide NonSpace;
    var all := sections + Headed(heading, body);
    if body == "" {
      assert all == sections;
    } else {
      assert all[..|all| - 1] == sections && all[|all| - 1] == Section(heading, body);
      assert AllText(all) == AllText(sections) + heading + body;
      NonSpaceAppend(AllText(sections) + heading, body);
      NonSpaceAppend(AllText(sections), heading);
      assert (NonSpace(AllText(sections)) + NonSpace(heading)) + NonSpace(body)
             == NonSpace(AllText(sections)) + (NonSpace(heading) + NonSpace(body));
    }
  }

  /** One heading and what stands under it. */
  lemma PartInk(text: string, ms: seq<Match>, i: nat)
    requires Matches(text, ms) && i < |ms|
    ensures Reach(text, ms, i) <= Reach(text, ms, i + 1) <= |text|
    ensures NonSpace(text[..Reach(text, ms, i + 1)])
         == NonSpace(text[..Reach(text, ms, i)]) + NonSpace(HeadingLine(text, ms, i))
           + NonSpace(Strip(Under(text, ms, i)))
    ensures |NonSpace(HeadingLine(text, ms, i))| > 0
  {
    ReachGrows(text, ms, i);
    var start, line, under := text[..ms[i].start], HeadingLine(text, ms, i), Under(text, ms, i);
    assert line[0] == text[ms[i].start] && !IsSpace(line[0]);
    hide IsSpace, NonSpace, Strip;
    assert text[..Reach(text, ms, i + 1)] == start + line + under;
    NonSpaceAppend(start + line, under);
    NonSpaceAppend(start, line);
    StripKeepsInk(under);
    BlankHasNothing(line);
  }

  /** What the sections so far show, with what was lost on the way, is what the text so far shows. */
  ghost predicate Accounted(shown: string, lost: nat, seen: string) {
    |shown| + lost == |seen| && (lost == 0 ==> shown == seen)
  }

  lemma {:induction false} HeadingInk(text: string, ms: seq<Match>, n: nat)
    requires Matches(text, ms) && ms != [] && n <= |ms|
    ensures Reach(text, ms, n) <= |text|
    ensures Accounted(NonSpace(AllText(HeadingSections(text, ms, n))), LostInk(text, ms, n),
                      NonSpace(text[..Reach(text, ms, n)]))
  {
    hide IsSpace, NonSpace, Strip, HeadingLine, Under, AllText;
    if n == 0 {
      PreambleInk(text[..ms[0].start]);
    } else {
      HeadingInk(text, ms, n - 1);
      PartInk(text, ms, n - 1);
      HeadedInk(HeadingSections(text, ms, n - 1), HeadingLine(text, ms, n - 1), Strip(Under(text, ms, n - 1)));
      EmptyStaysEmpty();
      AccountStep(NonSpace(AllText(HeadingSections(text, ms, n - 1))), LostInk(text, ms, n - 1),
                  NonSpace(text[..Reach(text, ms, n - 1)]), NonSpace(HeadingLine(text, ms, n - 1)),
                  NonSpace(Strip(Under(text, ms, n - 1))), Strip(Under(text, ms, n - 1)) == "");
      hide Accounted, Headed, Reach, Matches;
    }
  }

  /** A heading and its body are both shown, or the heading is lost. */
  lemma AccountStep(shown: string, lost: nat, seen: string, heading: string, body: string, empty: bool)
    requires Accounted(shown, lost, seen) && heading != "" && (empty ==> body == "")
    ensures Accounted(shown + if empty then "" else heading + body,
                      lost + if empty then |heading| else 0,
                      seen + heading + body)
  {
    if !empty {
      assert (seen + heading) + body == seen + (heading + body);
    }
  }

  lemma PreambleInk(start: string)
    ensures NonSpace(AllText(Headed("", Strip(start)))) == NonSpace(start)
  {
    hide IsSpace, NonSpace, Strip;
    StripKeepsInk(start);
    HeadedInk([], "", Strip(start));
    assert AllText([]) == "";
    EmptyStaysEmpty();
    assert [] + Headed("", Strip(start)) == Headed("", Strip(start));
  }

  lemma {:induction false} NothingLostIff(text: string, ms: seq<Match>, n: nat)
    requires Matches(text, ms) && n <= |ms|
    ensures LostInk(text, ms, n) == 0 <==> forall i :: 0 <= i < n ==> !Blank(Under(text, ms, i))
  {
    hide IsSpace, NonSpace, Strip, Blank, HeadingLine, Under;
    if n > 0 {
      NothingLostIff(text, ms, n - 1);
      PartInk(text, ms, n - 1);
      StripKeepsInk(Under(text, ms, n - 1));
    }
  }

  /** Exactly when splitting at headings keeps every visible character: when something visible stands
      under each heading.  A heading with an empty body is dropped. */
  lemma HeadingSplitKeepsInkIff(text: string, ms: seq<Match>)
    requires Matches(text, ms)
    ensures NonSpace(AllText(SplitByHeading(text, ms))) == NonSpace(text)
        <==> forall i :: 0 <= i < |ms| ==> !Blank(Under(text, ms, i))
  {
    if ms == [] {
      var s := [Section("", text)];
      assert s[..0] == [];
      assert AllText(s) == text;
    } else {
      hide IsSpace, NonSpace, Blank, Under;
      HeadingInk(text, ms, |ms|);
      NothingLostIff(text, ms, |ms|);
      assert text[..|text|] == text;
    }
  }

  // ---------------------------------------------------------------- chunks under headings

  function WithHeading(heading: string, piece: string): string {
    if heading != "" then heading + "\n\n" + piece else piece
  }

  function HeadAll(heading: string, pieces: seq<string>): (r: seq<string>)
    ensures |r| == |pieces| && forall i :: 0 <= i < |r| ==> r[i] == WithHeading(heading, pieces[i])
  {
    seq(|pieces|, i requires 0 <= i < |pieces| => WithHeading(heading, pieces[i]))
  }

  function SectionChunks(s: Section, chunkSize: int, splitter: Splitter): seq<string> {
    if |WithHeading(s.heading, s.body)| <= chunkSize then [WithHeading(s.heading, s.body)]
      else HeadAll(s.heading, splitter(s.body))
  }

  function HeadedChunks(sections: seq<Section>, chunkSize: int, splitter: Splitter): seq<string> {
    if sections == [] then []
    else
      HeadedChunks(sections[..|sections| - 1], chunkSize, splitter)
      + SectionChunks(sections[|sections| - 1], chunkSize, splitter)
  }

  function MarkdownChunks(text: string, ms: seq<Match>, chunkSize: int, splitter: Splitter): seq<string>
    requires Matches(text, ms)
  {
    if Strip(text) == "" then [] else HeadedChunks(SplitByHeading(text, ms), chunkSize, splitter)
  }

  /** `chunk_by_markdown`, and `chunk_by_table` with its own splitter. */
  method ChunkByMarkdown(text: string, ms: seq<Match>, chunkSize: int, splitter: Splitter) returns (chunks: seq<string>)
    requires Matches(text, ms)
    ensures chunks == MarkdownChunks(text, ms, chunkSize, splitter)
  {
    if Strip(text) == "" {
      return [];
    }
    var sections := SplitHeadings(text, ms);
    chunks := ChunkSections(sections, chunkSize, splitter);
  }

  method ChunkSections(sections: seq<Section>, chunkSize: int, splitter: Splitter) returns (chunks: seq<string>)
    ensures chunks == HeadedChunks(sections, chunkSize, splitter)
  {
    hide SectionChunks;
    chunks := [];
    for i := 0 to |sections|
      invariant chunks == HeadedChunks(sections[..i], chunkSize, splitter)
    {
      assert sections[..i + 1][..i] == sections[..i];
      var some := ChunkSection(sections[i], chunkSize, splitter);
      chunks := chunks + some;
    }
    assert sections[..|sections|] == sections;
  }

  /** The body of the loop. */
  method ChunkSection(s: Section, chunkSize: int, splitter: Splitter) returns (chunks: seq<string>)
    ensures chunks == SectionChunks(s, chunkSize, splitter)
  {
    var whole := WithHeading(s.heading, s.body);
    if |whole| <= chunkSize {
      return [whole];
    }
    var pieces := splitter(s.body);
    chunks := [];
    for k := 0 to |pieces|
      invariant chunks == HeadAll(s.heading, pieces)[..k]
    {
      chunks := chunks + [WithHeading(s.heading, pieces[k])];
    }
  }

  /** Every chunk opens with the heading of the section it comes from, and holds that section's body or a
      piece of it. */
  ghost predicate FromSection(s: Section, splitter: Splitter, chunk: string) {
    exists piece :: (piece == s.body || piece in splitter(s.body)) && chunk == WithHeading(s.heading, piece)
  }

  lemma {:induction false} ChunksKeepTheirHeading(sections: seq<Section>, chunkSize: int, splitter: Splitter)
    ensures forall c :: c in HeadedChunks(sections, chunkSize, splitter)
                        ==> exists s :: s in sections && FromSection(s, splitter, c)
  {
    if sections != [] {
      var front, last := sections[..|sections| - 1], sections[|sections| - 1];
      ChunksKeepTheirHeading(front, chunkSize, splitter);
      forall c | c in HeadedChunks(sections, chunkSize, splitter)
        ensures exists s :: s in sections && FromSection(s, splitter, c) {
        if c in HeadedChunks(front, chunkSize, splitter) {
          var s :| s in front && FromSection(s, splitter, c);
          assert s in sections;
        } else {
          assert last in sections && c in SectionChunks(last, chunkSize, splitter);
          SectionChunkFrom(last, chunkSize, splitter, c);
        }
      }
    }
  }

  lemma SectionChunkFrom(s: Section, chunkSize: int, splitter: Splitter, c: string)
    requires c in SectionChunks(s, chunkSize, splitter)
    ensures FromSection(s, splitter, c)
  {
    if |WithHeading(s.heading, s.body)| > chunkSize {
      var i :| 0 <= i < |splitter(s.body)| && HeadAll(s.heading, splitter(s.body))[i] == c;
      assert splitter(s.body)[i] in splitter(s.body);
    }
  }
}
