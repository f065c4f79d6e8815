/** Repairing raw line breaks inside JSON strings: `_fix_json_newlines` of agentflow/agents/planner/agent.py,
    repeated in agentflow/agents/reflection/agent.py. */
module JsonNewlines {

  /** The scanner between two characters: inside a string, and just after a backslash. */
  datatype Scan = Scan(inString: bool, escape: bool)

  const START := Scan(false, false)

  predicate LineBreak(c: char) {
    c == '\n' || c == '\r'
  }

  /** A backslash escapes the next character anywhere, inside a string or not. */
  function Next(s: Scan, c: char): Scan {
    if s.escape then s.(escape := false)
    else if c == '\\' then s.(escape := true)
    else if c == '"' then s.(inString := !s.inString)
    else s
  }

  /** What one character is replaced by; a carriage return becomes a line feed's escape too. */
  function Emit(s: Scan, c: char): string {
    if s.inString && !s.escape && LineBreak(c) then ['\\', 'n'] else [c]
  }

  function Advance(s: Scan, text: string): Scan {
    if text == [] then s else Next(Advance(s, text[..|text| - 1]), text[|text| - 1])
  }

  function FixFrom(s: Scan, text: string): string {
    if text == [] then [] else FixFrom(s, text[..|text| - 1]) + Emit(Advance(s, text[..|text| - 1]), text[|text| - 1])
  }

  function Fix(text: string): string {
    FixFrom(START, text)
  }

  /** `_fix_json_newlines`. */
  method FixJsonNewlines(text: string) returns (result: string)
    ensures result == Fix(text)
  {
    result := [];
    var inString, escape := false, false;
    for i := 0 to |text|
      invariant Scan(inString, escape) == Advance(START, text[..i])
      invariant result == Fix(text[..i])
    {
      assert text[..i + 1][..i] == text[..i];
      var ch := text[i];
      if escape {
        result := result + [ch];
        escape := false;
        continue;
      }
      if ch == '\\' {
        escape := true;
        result := result + [ch];
        continue;
      }
      if ch == '"' {
        inString := !inString;
        result := result + [ch];
        continue;
      }
      if inString && LineBreak(ch) {
        result := result + ['\\', 'n'];
        continue;
      }
      result := result + [ch];
    }
    assert text[..|text|] == text;
  }

  // ---------------------------------------------------------------- what the scanner knows

  /** The backslashes directly before position `n`. */
  function Slashes(text: string, n: nat): nat
    requires n <= |text|
  {
    if n == 0 || text[n - 1] != '\\' then 0 else 1 + Slashes(text, n - 1)
  }

  /** The quotation marks before position `n` that stand behind an even number of backslashes. */
  function Quotes(text: string, n: nat): nat
    requires n <= |text|
  {
    if n == 0 then 0
    else Quotes(text, n - 1) + if text[n - 1] == '"' && Slashes(text, n - 1) % 2 == 0 then 1 else 0
  }

  /** The scanner is inside a string behind an odd number of such marks, and after an escape behind an odd
      number of backslashes. */
  lemma {:induction false} ScannerIs(text: string, n: nat)
    requires n <= |text|
    ensures Advance(START, text[..n]) == Scan(Quotes(text, n) % 2 == 1, Slashes(text, n) % 2 == 1)
  {
    if n > 0 {
      ScannerIs(text, n - 1);
      assert text[..n][..n - 1] == text[..n - 1];
    }
  }

  /** Main result, character by character: a carriage return or line feed inside a string, not behind an odd
      number of backslashes, becomes a backslash and an n; everything else stays as it is. */
  lemma FixIs(text: string, n: nat)
    requires n < |text|
    ensures Fix(text[..0]) == ""
    ensures Fix(text[..n + 1])
         == Fix(text[..n]) + if text[n] in {'\n', '\r'} && Quotes(text, n) % 2 == 1 && Slashes(text, n) % 2 == 0
                             then ['\\', 'n'] else [text[n]]
  {
    ScannerIs(text, n);
    assert text[..n + 1][..n] == text[..n];
    hide Quotes, Slashes, Advance;
  }

  // ---------------------------------------------------------------- structure

  lemma {:induction false} AdvanceOver(s: Scan, a: string, b: string)
    ensures Advance(s, a + b) == Advance(Advance(s, a), b)
  {
    if b == [] {
      assert a + b == a;
    } else {
      AdvanceOver(s, a, b[..|b| - 1]);
      assert (a + b)[..|a + b| - 1] == a + b[..|b| - 1];
    }
  }

  /** The last character of what is appended. */
  lemma FixLast(s: Scan, a: string, b: string)
    requires b != []
    ensures var front, last := b[..|b| - 1], b[|b| - 1];
            FixFrom(s, a + b) == FixFrom(s, a + front) + Emit(Advance(s, a + front), last)
  {
    assert (a + b)[..|a + b| - 1] == a + b[..|b| - 1];
    hide Emit, Advance;
  }

  lemma FixUnfolds(s: Scan, b: string)
    requires b != []
    ensures var front, last := b[..|b| - 1], b[|b| - 1];
            FixFrom(s, b) == FixFrom(s, front) + Emit(Advance(s, front), last)
  {
    hide Emit, Advance;
  }

  lemma ConcatThree(a: string, b: string, c: string)
    ensures (a + b) + c == a + (b + c)
  {
  }

  lemma FixNothing(s: Scan, t: Scan, a: string)
    ensures FixFrom(s, a + []) == FixFrom(s, a) + FixFrom(t, [])
  {
    assert a + [] == a;
  }

  lemma {:induction false} FixOver(s: Scan, a: string, b: string)
    ensures FixFrom(s, a + b) == FixFrom(s, a) + FixFrom(Advance(s, a), b)
  {
    hide *;
    if b == [] {
      FixNothing(s, Advance(s, a), a);
    } else {
      var front, last := b[..|b| - 1], b[|b| - 1];
      FixOver(s, a, front);
      AdvanceOver(s, a, front);
      FixLast(s, a, b);
      FixUnfolds(Advance(s, a), b);
      ConcatThree(FixFrom(s, a), FixFrom(Advance(s, a), front), Emit(Advance(s, a + front), last));
    }
  }

  lemma OneChar(s: Scan, c: char)
    ensures Advance(s, [c]) == Next(s, c) && FixFrom(s, [c]) == Emit(s, c)
  {
    assert [c][..0] == [];
    assert Advance(s, []) == s;
  }

  /** The replacement leaves the scanner where the character itself would have. */
  lemma EmitAdvances(s: Scan, c: char)
    ensures Advance(s, Emit(s, c)) == Next(s, c)
  {
    OneChar(s, c);
    if Emit(s, c) != [c] {
      var d := Emit(s, c)[1];
      assert Emit(s, c) == ['\\'] + [d];
      AdvanceOver(s, ['\\'], [d]);
      OneChar(s, '\\');
      OneChar(Next(s, '\\'), d);
    }
  }

  /** Main result: after any prefix, the scanner over the output stands where it stands over the input. */
  lemma {:induction false} FixKeepsStructure(s: Scan, text: string)
    ensures Advance(s, FixFrom(s, text)) == Advance(s, text)
  {
    if text != [] {
      var front, last := text[..|text| - 1], text[|text| - 1];
      FixKeepsStructure(s, front);
      AdvanceOver(s, FixFrom(s, front), Emit(Advance(s, front), last));
      EmitAdvances(Advance(s, front), last);
    }
  }

  // ---------------------------------------------------------------- what is left

  /** A raw line break inside a string at `i`; `escaped` says whether a backslash stands before it. */
  predicate BreakAt(s: Scan, text: string, i: nat, escaped: bool)
    requires i < |text|
  {
    var t := Advance(s, text[..i]);
    t.inString && t.escape == escaped && LineBreak(text[i])
  }

  ghost predicate HasBreak(s: Scan, text: string, escaped: bool) {
    exists i: nat :: i < |text| && BreakAt(s, text, i, escaped)
  }

  /** How often such a break occurs. */
  function Breaks(s: Scan, text: string, escaped: bool): nat {
    if text == [] then 0
    else Breaks(s, text[..|text| - 1], escaped) + if BreakAt(s, text, |text| - 1, escaped) then 1 else 0
  }

  lemma {:induction false} BreaksCount(s: Scan, text: string, escaped: bool)
    ensures Breaks(s, text, escaped) > 0 <==> HasBreak(s, text, escaped)
  {
    if text != [] {
      var front := text[..|text| - 1];
      BreaksCount(s, front, escaped);
      forall i: nat | i < |front| ensures BreakAt(s, front, i, escaped) == BreakAt(s, text, i, escaped) {
        assert front[..i] == text[..i];
      }
      if HasBreak(s, front, escaped) {
        var i: nat :| i < |front| && BreakAt(s, front, i, escaped);
        assert BreakAt(s, text, i, escaped);
      }
      if HasBreak(s, text, escaped) {
        var i: nat :| i < |text| && BreakAt(s, text, i, escaped);
        assert i < |front| ==> BreakAt(s, front, i, escaped);
      }
    }
  }

  lemma {:induction false} BreaksOver(s: Scan, a: string, b: string, escaped: bool)
    ensures Breaks(s, a + b, escaped) == Breaks(s, a, escaped) + Breaks(Advance(s, a), b, escaped)
  {
    if b == [] {
      assert a + b == a;
    } else {
      var front := b[..|b| - 1];
      BreaksOver(s, a, front, escaped);
      AdvanceOver(s, a, front);
      assert (a + b)[..|a + b| - 1] == a + front;
    }
  }

  lemma BreaksOfEmit(s: Scan, c: char)
    ensures Breaks(s, Emit(s, c), false) == 0
    ensures Breaks(s, Emit(s, c), true) == if s.inString && s.escape && LineBreak(c) then 1 else 0
  {
    BreaksOfOne(s, c);
    if Emit(s, c) != [c] {
      var d := Emit(s, c)[1];
      assert Emit(s, c) == ['\\'] + [d];
      BreaksOver(s, ['\\'], [d], false);
      BreaksOver(s, ['\\'], [d], true);
      OneChar(s, '\\');
      BreaksOfOne(s, '\\');
      BreaksOfOne(Next(s, '\\'), d);
    }
  }

  lemma BreaksOfOne(s: Scan, c: char)
    ensures forall escaped ::
              Breaks(s, [c], escaped) == if s.inString && s.escape == escaped && LineBreak(c) then 1 else 0
  {
    assert [c][..0] == [];
    assert Advance(s, []) == s;
  }

  /** The output has no unescaped break inside a string, and exactly the escaped ones of the input. */
  lemma {:induction false} FixLeavesOnlyEscapedBreaks(s: Scan, text: string)
    ensures Breaks(s, FixFrom(s, text), false) == 0
    ensures Breaks(s, FixFrom(s, text), true) == Breaks(s, text, true)
  {
    if text != [] {
      var front, last := text[..|text| - 1], text[|text| - 1];
      FixLeavesOnlyEscapedBreaks(s, front);
      FixKeepsStructure(s, front);
      BreaksOver(s, FixFrom(s, front), Emit(Advance(s, front), last), false);
      BreaksOver(s, FixFrom(s, front), Emit(Advance(s, front), last), true);
      BreaksOfEmit(Advance(s, front), last);
    }
  }

  /** Main result: RFC 8259, section 7, allows no control character inside a string.  The output meets this
      for CR and LF exactly when the input has none behind a backslash inside a string. */
  lemma StringsFreeOfBreaksIff(text: string)
    ensures !HasBreak(START, Fix(text), false)
    ensures !HasBreak(START, Fix(text), true) <==> !HasBreak(START, text, true)
  {
    FixLeavesOnlyEscapedBreaks(START, text);
    BreaksCount(START, Fix(text), false);
    BreaksCount(START, Fix(text), true);
    BreaksCount(START, text, true);
  }

  // ---------------------------------------------------------------- identity and idempotence

  lemma {:induction false} FixGrows(s: Scan, text: string)
    ensures |FixFrom(s, text)| == |text| + Breaks(s, text, false)
  {
    if text != [] {
      FixGrows(s, text[..|text| - 1]);
    }
  }

  lemma {:induction false} CleanIsKept(s: Scan, text: string)
    requires Breaks(s, text, false) == 0
    ensures FixFrom(s, text) == text
  {
    if text != [] {
      CleanIsKept(s, text[..|text| - 1]);
    }
  }

  /** The text is untouched exactly when no unescaped break stands inside a string. */
  lemma FixIsIdentityIff(text: string)
    ensures Fix(text) == text <==> !HasBreak(START, text, false)
  {
    FixGrows(START, text);
    BreaksCount(START, text, false);
    if Breaks(START, text, false) == 0 {
      CleanIsKept(START, text);
    }
  }

  /** Fixing twice is fixing once. */
  lemma FixIsIdempotent(text: string)
    ensures Fix(Fix(text)) == Fix(text)
  {
    FixLeavesOnlyEscapedBreaks(START, text);
    CleanIsKept(START, Fix(text));
  }

  // ---------------------------------------------------------------- nothing else changes

  /** A lenient reader: inside a string, a raw CR or LF and the escape `\n` all mean one line feed. */
  function Read(s: Scan, text: string): string
    decreases |text|
  {
    if text == [] then []
    else if |text| >= 2 && s.inString && !s.escape && text[0] == '\\' && text[1] == 'n' then ['\n'] + Read(s, text[2..])
    else if s.inString && !s.escape && LineBreak(text[0]) then ['\n'] + Read(s, text[1..])
    else [text[0]] + Read(Next(s, text[0]), text[1..])
  }

  /** Main result: that reader gets the same content from the output as from the input, so nothing but the
      spelling of line breaks changes. */
  lemma {:induction false} ReaderCannotTell(s: Scan, text: string)
    ensures Read(s, FixFrom(s, text)) == Read(s, text)
    decreases |text|
  {
    hide *;
    if text == [] {
      NothingReads(s);
    } else if |text| >= 2 && s.inString && !s.escape && text[0] == '\\' && text[1] == 'n' {
      var rest := text[2..];
      assert text == ['\\', 'n'] + rest;
      EscapeReads(s, rest);
      EscapeIsRead(s, rest);
      ReaderCannotTell(s, rest);
    } else {
      var c, rest := text[0], text[1..];
      assert text == [c] + rest;
      CharReads(s, c, rest);
      CharIsRead(s, c, rest);
      ReaderCannotTell(Next(s, c), rest);
    }
  }

  lemma NothingReads(s: Scan)
    ensures FixFrom(s, []) == []
  {
  }

  lemma EscapeIsRead(s: Scan, rest: string)
    requires s.inString && !s.escape
    ensures Read(s, ['\\', 'n'] + rest) == ['\n'] + Read(s, rest)
  {
    assert (['\\', 'n'] + rest)[2..] == rest;
  }

  lemma CharIsRead(s: Scan, c: char, rest: string)
    requires !(rest != [] && s.inString && !s.escape && c == '\\' && rest[0] == 'n')
    ensures Read(s, [c] + rest)
            == [if s.inString && !s.escape && LineBreak(c) then '\n' else c] + Read(Next(s, c), rest)
  {
    assert ([c] + rest)[1..] == rest;
    hide LineBreak;
    BreakChangesNothing(s, c);
  }

  lemma BreakChangesNothing(s: Scan, c: char)
    ensures s.inString && !s.escape && LineBreak(c) ==> Next(s, c) == s
  {
  }

  /** A line feed's escape passes through. */
  lemma EscapeStays(s: Scan, rest: string)
    requires s.inString && !s.escape
    ensures FixFrom(s, ['\\', 'n'] + rest) == ['\\', 'n'] + FixFrom(s, rest)
  {
    hide FixFrom, Advance;
    var t := Next(s, '\\');
    OneChar(s, '\\');
    OneChar(t, 'n');
    assert ['\\', 'n'] + rest == ['\\'] + (['n'] + rest);
    FixOver(s, ['\\'], ['n'] + rest);
    FixOver(t, ['n'], rest);
  }

  lemma EscapeReads(s: Scan, rest: string)
    requires s.inString && !s.escape
    ensures Read(s, FixFrom(s, ['\\', 'n'] + rest)) == ['\n'] + Read(s, FixFrom(s, rest))
  {
    hide FixFrom;
    EscapeStays(s, rest);
    assert (['\\', 'n'] + FixFrom(s, rest))[2..] == FixFrom(s, rest);
  }

  /** Any other character reads as itself, a raw break as a line feed, before and after the repair. */
  lemma CharReads(s: Scan, c: char, rest: string)
    requires !(rest != [] && s.inString && !s.escape && c == '\\' && rest[0] == 'n')
    ensures Read(s, FixFrom(s, [c] + rest))
            == [if s.inString && !s.escape && LineBreak(c) then '\n' else c]
              + Read(Next(s, c), FixFrom(Next(s, c), rest))
  {
    var after := FixFrom(Next(s, c), rest);
    OneChar(s, c);
    FixOver(s, [c], rest);
    if Emit(s, c) != [c] {
      assert (Emit(s, c) + after)[2..] == after;
    } else {
      assert ([c] + after)[1..] == after;
      if s.inString && !s.escape && c == '\\' && rest != [] {
        FirstStays(Next(s, c), rest);
      }
    }
  }

  /** Behind a backslash the next character is copied. */
  lemma FirstStays(s: Scan, text: string)
    requires s.escape && text != []
    ensures FixFrom(s, text) != [] && FixFrom(s, text)[0] == text[0]
  {
    assert text == [text[0]] + text[1..];
    FixOver(s, [text[0]], text[1..]);
    OneChar(s, text[0]);
  }
}
