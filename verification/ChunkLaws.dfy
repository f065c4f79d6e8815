/** Where each chunk of a document comes from, and that none is missing: agentflow/knowledge/chunking.py. */
module ChunkLaws {

  import opened Text
  import opened Chunking
  import opened Lists

  /** `cuts` divides the chunks among the sections, in order. */
  ghost predicate Divides(cuts: seq<nat>, sections: nat, chunks: nat) {
    && |cuts| == sections + 1 && cuts[0] == 0 && cuts[sections] == chunks
    && forall i, j :: 0 <= i <= j < |cuts| ==> cuts[i] <= cuts[j]
  }

  /** The chunks of section `i`. */
  function ShareAt(cuts: seq<nat>, chunks: seq<string>, i: nat): seq<string> {
    if i + 1 < |cuts| && cuts[i] <= cuts[i + 1] <= |chunks| then chunks[cuts[i]..cuts[i + 1]] else []
  }

  /** These are the chunks of one section of code: its body, or its pieces if it is too long. */
  ghost predicate CodeShare(body: string, chunkSize: int, splitter: Splitter, share: seq<string>) {
    if |body| <= chunkSize then |share| == 1 && share[0] == body else share == splitter(body)
  }

  /** These are the chunks under one heading: one with the whole section, or one for each piece. */
  ghost predicate HeadingShare(s: Section, chunkSize: int, splitter: Splitter, share: seq<string>) {
    var lead := if s.heading == "" then "" else s.heading + "\n\n";
    if |lead| + |s.body| <= chunkSize then |share| == 1 && share[0] == lead + s.body
    else |share| == |splitter(s.body)| && forall j :: 0 <= j < |share| ==> share[j] == lead + splitter(s.body)[j]
  }

  lemma DividesSnoc(cuts: seq<nat>, sections: nat, chunks: nat, more: nat)
    requires Divides(cuts, sections, chunks)
    ensures Divides(cuts + [chunks + more], sections + 1, chunks + more)
  {
    forall i | 0 <= i < |cuts| ensures cuts[i] <= chunks {
      assert cuts[i] <= cuts[sections];
    }
  }

  /** Adding a share at the end leaves the others where they were. */
  lemma SharesStay(cuts: seq<nat>, sections: nat, before: seq<string>, share: seq<string>)
    requires Divides(cuts, sections, |before|)
    ensures var chunks, all := before + share, cuts + [|before| + |share|];
            && Divides(all, sections + 1, |chunks|)
            && (forall i: nat :: i < sections ==> ShareAt(all, chunks, i) == ShareAt(cuts, before, i))
            && ShareAt(all, chunks, sections) == share
  {
    DividesSnoc(cuts, sections, |before|, |share|);
    var chunks, all := before + share, cuts + [|before| + |share|];
    forall i: nat | i < sections ensures ShareAt(all, chunks, i) == ShareAt(cuts, before, i) {
      assert cuts[i + 1] <= cuts[sections];
    }
  }

  lemma NoSections()
    ensures Divides([0], 0, 0)
  {
  }

  lemma CodeUnfolds(sections: seq<Section>, chunkSize: int, splitter: Splitter)
    ensures sections == [] ==> CodePieces(sections, chunkSize, splitter) == []
    ensures sections != [] ==>
              var n := |sections| - 1;
              var share := PiecesOf(sections[n].body, chunkSize, splitter);
              && CodePieces(sections, chunkSize, splitter) == CodePieces(sections[..n], chunkSize, splitter) + share
              && CodeShare(sections[n].body, chunkSize, splitter, share)
  {
  }

  lemma HeadedUnfolds(sections: seq<Section>, chunkSize: int, splitter: Splitter)
    ensures sections == [] ==> HeadedChunks(sections, chunkSize, splitter) == []
    ensures sections != [] ==>
              var n := |sections| - 1;
              var share := SectionChunks(sections[n], chunkSize, splitter);
              && HeadedChunks(sections, chunkSize, splitter) == HeadedChunks(sections[..n], chunkSize, splitter) + share
              && HeadingShare(sections[n], chunkSize, splitter, share)
  {
    if sections != [] {
      ShareIs(sections[|sections| - 1], chunkSize, splitter);
      hide SectionChunks, HeadingShare;
    }
  }

  /** Chunk by chunk, the code chunks are the shares of the sections. */
  lemma {:induction false} CodeShares(sections: seq<Section>, chunkSize: int, splitter: Splitter)
    returns (cuts: seq<nat>)
    ensures var chunks := CodePieces(sections, chunkSize, splitter);
            && Divides(cuts, |sections|, |chunks|)
            && forall i :: 0 <= i < |sections| ==>
                 CodeShare(sections[i].body, chunkSize, splitter, ShareAt(cuts, chunks, i))
  {
    hide *;
    CodeUnfolds(sections, chunkSize, splitter);
    if sections == [] {
      NoSections();
      cuts := [0];
    } else {
      var n := |sections| - 1;
      var before := CodePieces(sections[..n], chunkSize, splitter);
      var share := PiecesOf(sections[n].body, chunkSize, splitter);
      var front := CodeShares(sections[..n], chunkSize, splitter);
      SharesStay(front, n, before, share);
      cuts := front + [|before| + |share|];
    }
  }

  lemma ShareIs(s: Section, chunkSize: int, splitter: Splitter)
    ensures HeadingShare(s, chunkSize, splitter, SectionChunks(s, chunkSize, splitter))
  {
    if s.heading == "" {
      assert "" + s.body == s.body;
      forall j | 0 <= j < |splitter(s.body)| ensures "" + splitter(s.body)[j] == splitter(s.body)[j] {
      }
    } else {
      assert (s.heading + "\n\n") + s.body == s.heading + "\n\n" + s.body;
    }
  }

  /** Chunk by chunk, the headed chunks are the shares of the sections. */
  lemma {:induction false} HeadingShares(sections: seq<Section>, chunkSize: int, splitter: Splitter)
    returns (cuts: seq<nat>)
    ensures var chunks := HeadedChunks(sections, chunkSize, splitter);
            && Divides(cuts, |sections|, |chunks|)
            && forall i :: 0 <= i < |sections| ==>
                 HeadingShare(sections[i], chunkSize, splitter, ShareAt(cuts, chunks, i))
  {
    hide *;
    HeadedUnfolds(sections, chunkSize, splitter);
    if sections == [] {
      NoSections();
      cuts := [0];
    } else {
      var n := |sections| - 1;
      var before := HeadedChunks(sections[..n], chunkSize, splitter);
      var share := SectionChunks(sections[n], chunkSize, splitter);
      var front := HeadingShares(sections[..n], chunkSize, splitter);
      SharesStay(front, n, before, share);
      cuts := front + [|before| + |share|];
    }
  }

  // ---------------------------------------------------------------- which sections there are

  /** The part of the text that begins at match `k` and ends before the next. */
  function PartAt(text: string, ms: seq<Match>, k: nat): string
    requires Matches(text, ms) && k < |ms|
  {
    text[ms[k].start..if k + 1 < |ms| then ms[k + 1].start else |text|]
  }

  lemma PartShows(text: string, ms: seq<Match>, k: nat)
    requires Matches(text, ms) && k < |ms|
    ensures PartAt(text, ms, k) == From(text, ms, k) && RStrip(PartAt(text, ms, k)) != ""
  {
    RStripKeepsInk(PartAt(text, ms, k));
    assert !IsSpace(PartAt(text, ms, k)[0]);
  }

  lemma {:induction false} CodeSectionsAre(text: string, ms: seq<Match>, n: nat)
    requires Matches(text, ms) && ms != [] && n <= |ms|
    ensures var sections, preamble := CodeSections(text, ms, n), RStrip(text[..ms[0].start]);
            var lead := if preamble == "" then 0 else 1;
            && |sections| == lead + n
            && (lead == 1 ==> sections[0] == Section("", preamble))
            && forall k: nat :: k < n ==>
                 sections[lead + k] == Section(text[ms[k].start..ms[k].end], RStrip(PartAt(text, ms, k)))
  {
    hide RStrip, IsSpace;
    if n > 0 {
      CodeSectionsAre(text, ms, n - 1);
      PartShows(text, ms, n - 1);
      hide Matches, From, PartAt;
    }
  }

  /** One section for what stands before the first match, if anything does, and one for every match, from
      its beginning to the next, stripped of white space at the end. */
  lemma CodeSplitIs(text: string, ms: seq<Match>)
    requires Matches(text, ms)
    ensures ms == [] ==> SplitByCodeBoundary(text, ms) == [Section("", text)]
    ensures ms != [] ==>
              var sections, preamble := SplitByCodeBoundary(text, ms), RStrip(text[..ms[0].start]);
              var lead := if preamble == "" then 0 else 1;
              && |sections| == lead + |ms|
              && (lead == 1 ==> sections[0] == Section("", preamble))
              && forall k: nat :: k < |ms| ==>
                   sections[lead + k] == Section(text[ms[k].start..ms[k].end], RStrip(PartAt(text, ms, k)))
  {
    if ms != [] {
      CodeSectionsAre(text, ms, |ms|);
    }
  }

  /** What stands under match `k`. */
  function UnderAt(text: string, ms: seq<Match>, k: nat): string
    requires Matches(text, ms) && k < |ms|
  {
    text[ms[k].end..if k + 1 < |ms| then ms[k + 1].start else |text|]
  }

  lemma UnderShows(text: string, ms: seq<Match>, k: nat)
    requires Matches(text, ms) && k < |ms|
    ensures UnderAt(text, ms, k) == Under(text, ms, k)
    ensures Strip(UnderAt(text, ms, k)) == "" <==> Blank(UnderAt(text, ms, k))
  {
    StripKeepsInk(UnderAt(text, ms, k));
  }

  /** These are the preamble, if it shows anything, and one section for each of the matches `at`. */
  ghost predicate Headings(text: string, ms: seq<Match>, sections: seq<Section>, at: seq<nat>)
    requires Matches(text, ms) && ms != []
  {
    var preamble := Strip(text[..ms[0].start]);
    var lead := if preamble == "" then 0 else 1;
    && |sections| == lead + |at|
    && (lead == 1 ==> sections[0] == Section("", preamble))
    && forall i: nat :: i < |at| ==>
         && at[i] < |ms|
         && sections[lead + i] == Section(text[ms[at[i]].start..ms[at[i]].end], Strip(UnderAt(text, ms, at[i])))
  }

  lemma PreambleOnly(text: string, ms: seq<Match>)
    requires Matches(text, ms) && ms != []
    ensures Headings(text, ms, HeadingSections(text, ms, 0), []) && Ascending([])
  {
    hide Strip;
  }

  lemma OneMoreHeading(text: string, ms: seq<Match>, sections: seq<Section>, at: seq<nat>, n: nat)
    requires Matches(text, ms) && n < |ms| && Headings(text, ms, sections, at)
    ensures !Blank(UnderAt(text, ms, n)) ==>
              Headings(text, ms, sections + Headed(HeadingLine(text, ms, n), Strip(Under(text, ms, n))), at + [n])
    ensures Blank(UnderAt(text, ms, n)) ==>
              Headings(text, ms, sections + Headed(HeadingLine(text, ms, n), Strip(Under(text, ms, n))), at)
  {
    UnderShows(text, ms, n);
    hide Strip, Blank, UnderAt, Under;
  }

  lemma {:induction false} HeadingSectionsAre(text: string, ms: seq<Match>, n: nat) returns (at: seq<nat>)
    requires Matches(text, ms) && ms != [] && n <= |ms|
    ensures Ascending(at) && forall k: nat :: k in at <==> k < n && !Blank(UnderAt(text, ms, k))
    ensures Headings(text, ms, HeadingSections(text, ms, n), at)
  {
    hide *;
    at := [];
    if n == 0 {
      PreambleOnly(text, ms);
    } else {
      at := HeadingSectionsAre(text, ms, n - 1);
      HeadingSectionsNext(text, ms, n - 1);
      OneMoreHeading(text, ms, HeadingSections(text, ms, n - 1), at, n - 1);
      if !Blank(UnderAt(text, ms, n - 1)) {
        AscendingSnoc(at, n - 1);
        at := at + [n - 1];
      }
    }
  }

  /** One section for what stands before the first heading, if anything visible does, and one for every
      heading with something visible under it, that text stripped; the other headings are lost. */
  lemma HeadingSplitIs(text: string, ms: seq<Match>) returns (at: seq<nat>)
    requires Matches(text, ms)
    ensures ms == [] ==> SplitByHeading(text, ms) == [Section("", text)]
    ensures Ascending(at) && forall k: nat :: k in at <==> k < |ms| && !Blank(UnderAt(text, ms, k))
    ensures ms != [] ==> Headings(text, ms, SplitByHeading(text, ms), at)
  {
    at := [];
    if ms != [] {
      hide Headings;
      at := HeadingSectionsAre(text, ms, |ms|);
    }
  }

  // ---------------------------------------------------------------- what the chunks show

  lemma {:induction false} WithinTransitive(a: string, b: string, c: string)
    requires Within(a, b) && Within(b, c)
    ensures Within(a, c)
    decreases |c|
  {
    if a != "" && b != "" && c != "" {
      if b[0] == c[0] {
        if a[0] == b[0] {
          WithinTransitive(a[1..], b[1..], c[1..]);
        } else {
          WithinTransitive(a, b[1..], c[1..]);
        }
      } else {
        WithinTransitive(a, b, c[1..]);
        WithinTail(a, c[1..]);
      }
    }
  }

  lemma HeadInk(heading: string, piece: string)
    ensures NonSpace(WithHeading(heading, piece)) == NonSpace(heading) + NonSpace(piece)
  {
    NonSpaceAppend(heading + "\n\n", piece);
    NonSpaceAppend(heading, "\n\n");
    assert NonSpace("\n\n") == "" by { BlankHasNothing("\n\n"); }
    assert NonSpace(heading) + "" == NonSpace(heading);
    hide IsSpace;
    assert heading == "" ==> NonSpace(heading) == "" && "" + NonSpace(piece) == NonSpace(piece);
  }

  /** The pieces show through their headings. */
  lemma {:induction false} PiecesShow(heading: string, pieces: seq<string>)
    ensures Within(NonSpace(Concat(pieces)), NonSpace(Concat(HeadAll(heading, pieces))))
  {
    hide NonSpace, Within;
    if pieces == [] {
      assert HeadAll(heading, pieces) == [];
      WithinItself(NonSpace(Concat(pieces)));
    } else {
      var rest := pieces[1..];
      PiecesShow(heading, rest);
      HeadedUnfold(heading, pieces);
      WithinItself(NonSpace(pieces[0]));
      WithinBehind(NonSpace(pieces[0]), NonSpace(heading));
      WithinOver(NonSpace(pieces[0]), NonSpace(Concat(rest)), NonSpace(heading) + NonSpace(pieces[0]),
                 NonSpace(Concat(HeadAll(heading, rest))));
    }
  }

  lemma WithinBehind(a: string, front: string)
    ensures Within(a, front + a)
  {
    WithinItself(a);
    WithinLonger(a, a, front);
  }

  lemma HeadedUnfold(heading: string, pieces: seq<string>)
    requires pieces != []
    ensures NonSpace(Concat(pieces)) == NonSpace(pieces[0]) + NonSpace(Concat(pieces[1..]))
    ensures NonSpace(Concat(HeadAll(heading, pieces)))
         == (NonSpace(heading) + NonSpace(pieces[0])) + NonSpace(Concat(HeadAll(heading, pieces[1..])))
  {
    NonSpaceAppend(pieces[0], Concat(pieces[1..]));
    assert HeadAll(heading, pieces)[1..] == HeadAll(heading, pieces[1..]);
    HeadInk(heading, pieces[0]);
    NonSpaceAppend(WithHeading(heading, pieces[0]), Concat(HeadAll(heading, pieces[1..])));
    hide NonSpace, WithHeading;
  }

  /** Heading and body of a section show in its chunks. */
  lemma SectionShows(s: Section, chunkSize: int, splitter: Splitter)
    requires |WithHeading(s.heading, s.body)| > chunkSize ==> Covered(s.body, splitter(s.body))
    requires NonSpace(s.body) != "" || s.heading == ""
    ensures Within(NonSpace(s.heading) + NonSpace(s.body), NonSpace(Concat(SectionChunks(s, chunkSize, splitter))))
  {
    if |WithHeading(s.heading, s.body)| <= chunkSize {
      HeadInk(s.heading, s.body);
      var whole := WithHeading(s.heading, s.body);
      assert Concat([whole]) == whole;
      WithinItself(NonSpace(whole));
    } else {
      LongSectionShows(s, splitter);
    }
  }

  lemma LongSectionShows(s: Section, splitter: Splitter)
    requires Covered(s.body, splitter(s.body)) && (NonSpace(s.body) != "" || s.heading == "")
    ensures Within(NonSpace(s.heading) + NonSpace(s.body), NonSpace(Concat(HeadAll(s.heading, splitter(s.body)))))
  {
    var pieces := splitter(s.body);
    if pieces == [] {
      NothingShows(s.body);
      assert HeadAll(s.heading, pieces) == [];
    } else {
      HeadedUnfold(s.heading, pieces);
      PiecesShow(s.heading, pieces[1..]);
      hide *;
      CoveredIs(s.body, pieces);
      BehindHeading(NonSpace(s.heading), NonSpace(s.body), NonSpace(pieces[0]), NonSpace(Concat(pieces[1..])),
                    NonSpace(Concat(HeadAll(s.heading, pieces[1..]))));
    }
  }

  /** Without pieces there was nothing to cover. */
  lemma NothingShows(body: string)
    ensures Covered(body, []) ==> NonSpace(body) == ""
  {
    assert NonSpace(Concat([])) == "";
  }

  lemma BehindHeading(h: string, x: string, a: string, rest: string, b: string)
    requires Within(x, a + rest) && Within(rest, b)
    ensures Within(h + x, (h + a) + b)
  {
    hide *;
    WithinItself(a);
    WithinOver(a, rest, a, b);
    WithinTransitive(x, a + rest, a + b);
    WithinItself(h);
    WithinOver(h, x, h, a + b);
    ThreeStrings(h, a, b);
  }

  lemma {:induction false} SectionsShow(sections: seq<Section>, chunkSize: int, splitter: Splitter)
    requires forall s :: s in sections ==>
               && (|WithHeading(s.heading, s.body)| > chunkSize ==> Covered(s.body, splitter(s.body)))
               && (NonSpace(s.body) != "" || s.heading == "")
    ensures Within(NonSpace(AllText(sections)), NonSpace(Concat(HeadedChunks(sections, chunkSize, splitter))))
  {
    hide NonSpace, Within, SectionChunks, WithHeading, Covered;
    if sections == [] {
      WithinItself(NonSpace(""));
    } else {
      var n := |sections| - 1;
      var last := sections[n];
      assert last in sections;
      SectionsShow(sections[..n], chunkSize, splitter);
      SectionShows(last, chunkSize, splitter);
      var before := HeadedChunks(sections[..n], chunkSize, splitter);
      ConcatOver(before, SectionChunks(last, chunkSize, splitter));
      NonSpaceAppend(Concat(before), Concat(SectionChunks(last, chunkSize, splitter)));
      AllTextInk(sections);
      WithinOver(NonSpace(AllText(sections[..n])), NonSpace(last.heading) + NonSpace(last.body),
                 NonSpace(Concat(before)), NonSpace(Concat(SectionChunks(last, chunkSize, splitter))));
    }
  }

  lemma AllTextInk(sections: seq<Section>)
    requires sections != []
    ensures var n := |sections| - 1;
            NonSpace(AllText(sections))
            == NonSpace(AllText(sections[..n])) + (NonSpace(sections[n].heading) + NonSpace(sections[n].body))
  {
    var n := |sections| - 1;
    var before, h, b := AllText(sections[..n]), sections[n].heading, sections[n].body;
    assert AllText(sections) == before + h + b;
    hide *;
    NonSpaceAppend(before + h, b);
    NonSpaceAppend(before, h);
    ThreeStrings(NonSpace(before), NonSpace(h), NonSpace(b));
  }

  lemma ThreeStrings(a: string, b: string, c: string)
    ensures (a + b) + c == a + (b + c)
  {
  }

  /** Every section of the heading split has something to show. */
  lemma {:induction false} BodiesShow(text: string, ms: seq<Match>, n: nat)
    requires Matches(text, ms) && n <= |ms|
    ensures forall s :: s in HeadingSections(text, ms, n) ==> NonSpace(s.body) != ""
  {
    hide IsSpace, NonSpace, Strip, HeadingLine, Under;
    if n > 0 {
      BodiesShow(text, ms, n - 1);
      StrippedShows(Under(text, ms, n - 1));
    } else if ms != [] {
      StrippedShows(text[..ms[0].start]);
    }
  }

  lemma StrippedShows(s: string)
    ensures Strip(s) != "" ==> NonSpace(Strip(s)) != ""
  {
    StripKeepsInk(s);
    BlankHasNothing(s);
  }

  /** Chunking at headings shows every visible character of the text, in order, where something stands under
      each heading and the splitter covers each section too long for one chunk. */
  lemma MarkdownChunksCover(text: string, ms: seq<Match>, chunkSize: int, splitter: Splitter)
    requires Matches(text, ms) && forall i :: 0 <= i < |ms| ==> !Blank(Under(text, ms, i))
    requires forall s :: s in SplitByHeading(text, ms) && |WithHeading(s.heading, s.body)| > chunkSize ==>
               Covered(s.body, splitter(s.body))
    ensures Covered(text, MarkdownChunks(text, ms, chunkSize, splitter))
  {
    StripKeepsInk(text);
    if Strip(text) == "" {
      EmptyStaysEmpty();
    } else {
      HeadingSplitKeepsInkIff(text, ms);
      BodiesShow(text, ms, |ms|);
      hide NonSpace, Strip, Within, Covered, Blank, WithHeading, HeadingSections, Under, Matches;
      SectionsShow(SplitByHeading(text, ms), chunkSize, splitter);
      CoveredIs(text, MarkdownChunks(text, ms, chunkSize, splitter));
    }
  }

  lemma CoveredIs(text: string, chunks: seq<string>)
    ensures Covered(text, chunks) <==> Within(NonSpace(text), NonSpace(Concat(chunks)))
  {
  }
}
