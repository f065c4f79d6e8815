/** String helpers with the meaning Python gives them. */
module Text {

  /** `str.isspace` for one character. */
  predicate IsSpace(c: char) {
    ('\t' <= c <= '\r') || ('\U{1c}' <= c <= '\U{20}') || c == '\U{85}' || c == '\U{a0}' || c == '\U{1680}'
    || ('\U{2000}' <= c <= '\U{200a}') || c == '\U{2028}' || c == '\U{2029}' || c == '\U{202f}'
    || c == '\U{205f}' || c == '\U{3000}'
  }

  /** Everything but the white space. */
  function NonSpace(s: string): (r: string)
    ensures forall c :: c in r ==> !IsSpace(c) && c in s
  {
    if s == [] then [] else (if IsSpace(s[0]) then [] else [s[0]]) + NonSpace(s[1..])
  }

  predicate Blank(s: string) {
    forall i :: 0 <= i < |s| ==> IsSpace(s[i])
  }

  function RStrip(s: string): string {
    if s == [] || !IsSpace(s[|s| - 1]) then s else RStrip(s[..|s| - 1])
  }

  function LStrip(s: string): string {
    if s == [] || !IsSpace(s[0]) then s else LStrip(s[1..])
  }

  /** The text up to its last visible character. */
  lemma {:induction false} RStripShape(s: string)
    ensures RStrip(s) <= s && Blank(s[|RStrip(s)|..])
    ensures RStrip(s) != [] ==> !IsSpace(RStrip(s)[|RStrip(s)| - 1])
  {
    hide IsSpace;
    if s != [] && IsSpace(s[|s| - 1]) {
      var front, r := s[..|s| - 1], RStrip(s[..|s| - 1]);
      RStripShape(front);
      assert s[|r|..] == front[|r|..] + [s[|s| - 1]];
    }
  }

  /** The text from its first visible character on. */
  lemma {:induction false} LStripShape(s: string)
    ensures |LStrip(s)| <= |s| && s[|s| - |LStrip(s)|..] == LStrip(s) && Blank(s[..|s| - |LStrip(s)|])
    ensures LStrip(s) != [] ==> !IsSpace(LStrip(s)[0])
  {
    hide IsSpace;
    if s != [] && IsSpace(s[0]) {
      var k := |s| - 1 - |LStrip(s[1..])|;
      LStripShape(s[1..]);
      assert s[..k + 1] == [s[0]] + s[1..][..k];
    }
  }

  function Strip(s: string): string {
    LStrip(RStrip(s))
  }

  /** Stripping takes white space off both ends and nothing else. */
  lemma StripIs(s: string) returns (i: nat, j: nat)
    ensures i <= j <= |s| && Strip(s) == s[i..j] && Blank(s[..i]) && Blank(s[j..])
    ensures Strip(s) != "" ==> !IsSpace(Strip(s)[0]) && !IsSpace(Strip(s)[|Strip(s)| - 1])
  {
    hide IsSpace;
    RStripShape(s);
    LStripShape(RStrip(s));
    j := |RStrip(s)|;
    i := j - |Strip(s)|;
    assert s[..j] == RStrip(s);
    assert s[..i] == RStrip(s)[..i];
  }

  lemma {:induction false} NonSpaceAppend(a: string, b: string)
    ensures NonSpace(a + b) == NonSpace(a) + NonSpace(b)
  {
    hide IsSpace;
    if a == [] {
      assert a + b == b;
    } else {
      assert (a + b)[1..] == a[1..] + b;
      NonSpaceAppend(a[1..], b);
    }
  }

  lemma {:induction false} BlankHasNothing(s: string)
    ensures Blank(s) <==> NonSpace(s) == []
  {
    hide IsSpace;
    if s != [] {
      assert s == [s[0]] + s[1..];
      BlankHasNothing(s[1..]);
      if Blank(s[1..]) && IsSpace(s[0]) {
        assert forall i :: 1 <= i < |s| ==> s[i] == s[1..][i - 1];
      }
    }
  }

  lemma BlankOver(a: string, b: string)
    ensures Blank(a + b) <==> Blank(a) && Blank(b)
  {
    hide IsSpace;
    NonSpaceAppend(a, b);
    BlankHasNothing(a);
    BlankHasNothing(b);
    BlankHasNothing(a + b);
  }

  lemma RStripKeepsInk(s: string)
    ensures NonSpace(RStrip(s)) == NonSpace(s)
    ensures RStrip(s) == [] <==> Blank(s)
  {
    hide IsSpace;
    var r := RStrip(s);
    RStripShape(s);
    hide RStrip;
    assert s == r + s[|r|..];
    NonSpaceAppend(r, s[|r|..]);
    BlankHasNothing(s[|r|..]);
    BlankHasNothing(s);
    BlankHasNothing(r);
  }

  lemma LStripKeepsInk(s: string)
    ensures NonSpace(LStrip(s)) == NonSpace(s)
    ensures LStrip(s) == [] <==> Blank(s)
  {
    hide IsSpace;
    var l := LStrip(s);
    LStripShape(s);
    hide LStrip, NonSpace, Blank;
    var k := |s| - |l|;
    assert s == s[..k] + l;
    NonSpaceAppend(s[..k], l);
    BlankHasNothing(s[..k]);
    BlankHasNothing(s);
    BlankHasNothing(l);
    OnlyEmptyHasNothing(l);
  }

  /** A string that begins with a visible character shows something. */
  lemma OnlyEmptyHasNothing(s: string)
    requires s != [] ==> !IsSpace(s[0])
    ensures NonSpace(s) == [] <==> s == []
  {
    hide IsSpace;
  }

  lemma EmptyStaysEmpty()
    ensures RStrip("") == "" && Strip("") == "" && NonSpace("") == "" && Blank("")
  {
  }

  /** Stripping loses white space only, and an empty result means there was nothing else. */
  lemma StripKeepsInk(s: string)
    ensures NonSpace(Strip(s)) == NonSpace(s)
    ensures Strip(s) == [] <==> Blank(s)
  {
    hide IsSpace;
    RStripKeepsInk(s);
    LStripKeepsInk(RStrip(s));
    BlankHasNothing(s);
    BlankHasNothing(RStrip(s));
  }
}
