/** The rolling window over a conversation: agentflow/conversation/compression.py.  The summary text comes
    from a model or a rule and is a function of the dropped messages here. */
module Compression {

  datatype Message = Message(role: string, content: string)

  const CHARS_PER_TOKEN := 4

  /** `estimate_tokens`. */
  function EstimateTokens(text: string): nat {
    if text == "" then 0 else if |text| / CHARS_PER_TOKEN < 1 then 1 else |text| / CHARS_PER_TOKEN
  }

  /** The non-empty contents, one per line. */
  function JoinContents(ms: seq<Message>): string {
    if ms == [] then ""
    else
      var rest := JoinContents(ms[1..]);
      if ms[0].content == "" then rest
      else if rest == "" then ms[0].content
      else ms[0].content + "\n" + rest
  }

  /** `count_tokens`. */
  function CountTokens(ms: seq<Message>): nat {
    EstimateTokens(JoinContents(ms))
  }

  /** The characters of the non-empty contents, one more for each as its line break. */
  function Chars(ms: seq<Message>): nat {
    if ms == [] then 0 else Chars(ms[1..]) + if ms[0].content == "" then 0 else |ms[0].content| + 1
  }

  lemma {:induction false} JoinedLength(ms: seq<Message>)
    ensures |JoinContents(ms)| == if Chars(ms) == 0 then 0 else Chars(ms) - 1
  {
    if ms != [] {
      JoinedLength(ms[1..]);
      NoCharsIff(ms[1..]);
    }
  }

  /** A token for every four characters of the joined text, but at least one for any text. */
  lemma CountTokensIs(ms: seq<Message>)
    ensures CountTokens(ms) == 0 <==> forall i :: 0 <= i < |ms| ==> ms[i].content == ""
    ensures CountTokens(ms) > 0 ==> CountTokens(ms) == if Chars(ms) < 9 then 1 else (Chars(ms) - 1) / 4
  {
    JoinedLength(ms);
    NoCharsIff(ms);
  }

  lemma {:induction false} NoCharsIff(ms: seq<Message>)
    ensures Chars(ms) == 0 <==> forall i :: 0 <= i < |ms| ==> ms[i].content == ""
    ensures Chars(ms) != 1
  {
    if ms != [] {
      NoCharsIff(ms[1..]);
      assert forall i :: 0 <= i < |ms| ==> ms[i] == if i == 0 then ms[0] else ms[1..][i - 1];
    }
  }

  /** Where Python cuts for `history[:-k]` and `history[-k:]`; zero cuts nothing off, a negative k counts
      from the front. */
  function CutAt(n: nat, minKeep: int): (c: nat)
    ensures c <= n
  {
    if minKeep > 0 then if minKeep <= n then n - minKeep else 0
    else if -minKeep <= n then -minKeep
    else n
  }

  /** Popping the window's oldest message while it is too long and more than two remain. */
  function Trim(recent: seq<Message>, budget: int): (r: seq<Message>)
    ensures |r| <= |recent|
  {
    if |recent| > 2 && CountTokens(recent) > budget then Trim(recent[1..], budget) else recent
  }

  /** The window kept and the messages given up. */
  function Window(history: seq<Message>, budget: int, minKeep: int): (seq<Message>, seq<Message>) {
    var c := CutAt(|history|, minKeep);
    if CountTokens(history) <= budget || c == 0 then (history, [])
    else
      var recent := Trim(history[c..], budget);
      (recent, history[..|history| - |recent|])
  }

  /** The `k` most recent messages. */
  function Last(ms: seq<Message>, k: nat): seq<Message>
    requires k <= |ms|
  {
    ms[|ms| - k..]
  }

  /** `compress_history`. */
  method CompressHistory(history: seq<Message>, budget: int, minKeep: int, summarise: seq<Message> -> string)
    returns (recent: seq<Message>, summary: string)
    ensures recent == Window(history, budget, minKeep).0
    ensures var older := Window(history, budget, minKeep).1;
            summary == if older == [] then "" else summarise(older)
  {
    hide CountTokens, CutAt;
    if history == [] {
      NothingToTrim(budget, minKeep);
      return [], "";
    }
    if CountTokens(history) <= budget {
      return history, "";
    }
    var c := CutAt(|history|, minKeep);
    recent := history[c..];
    var older := history[..c];
    if older == [] {
      return history, "";
    }
    while |recent| > 2 && CountTokens(recent) > budget
      invariant 0 < |older| && |older| + |recent| == |history|
      invariant older == history[..|older|] && recent == history[|older|..]
      invariant Trim(recent, budget) == Trim(history[c..], budget)
      decreases |recent|
    {
      assert recent[0] == history[|older|];
      older := older + [recent[0]];
      recent := recent[1..];
    }
    summary := summarise(older);
  }

  lemma NothingToTrim(budget: int, minKeep: int)
    ensures Window([], budget, minKeep) == ([], [])
  {
  }

  // ---------------------------------------------------------------- what the window is

  lemma {:induction false} JoinShrinks(ms: seq<Message>, k: nat)
    requires k <= |ms|
    ensures |JoinContents(ms[k..])| <= |JoinContents(ms)|
    decreases k
  {
    if k == 0 {
      assert ms[0..] == ms;
    } else {
      JoinShrinks(ms[1..], k - 1);
      assert ms[1..][k - 1..] == ms[k..];
    }
  }

  /** Fewer messages never cost more tokens. */
  lemma SuffixCostsLess(ms: seq<Message>, k: nat)
    requires k <= |ms|
    ensures CountTokens(ms[k..]) <= CountTokens(ms)
  {
    JoinShrinks(ms, k);
  }

  lemma LastOfLast(ms: seq<Message>, k: nat, n: nat)
    requires k <= n <= |ms|
    ensures Last(Last(ms, n), k) == Last(ms, k)
  {
  }

  /** `r` is the longest suffix of two or more messages of the window that fits, or its last two. */
  ghost predicate LongestFit(window: seq<Message>, r: seq<Message>, budget: int) {
    && |r| <= |window| && Last(window, |r|) == r
    && (|r| < 2 ==> r == window)
    && (|r| > 2 ==> CountTokens(r) <= budget)
    && (forall k: nat :: |r| < k <= |window| ==> CountTokens(Last(window, k)) > budget)
  }

  lemma {:induction false} TrimIsLongestFit(window: seq<Message>, budget: int)
    ensures LongestFit(window, Trim(window, budget), budget)
  {
    hide CountTokens;
    if |window| > 2 && CountTokens(window) > budget {
      TrimIsLongestFit(window[1..], budget);
      LongerWindow(window, Trim(window, budget), budget);
    }
  }

  lemma LongerWindow(window: seq<Message>, r: seq<Message>, budget: int)
    requires |window| > 2 && CountTokens(window) > budget && LongestFit(window[1..], r, budget)
    ensures LongestFit(window, r, budget)
  {
    hide CountTokens;
    var rest := window[1..];
    assert rest == Last(window, |rest|);
    LastOfLast(window, |r|, |rest|);
    forall k: nat | |r| < k <= |window| ensures CountTokens(Last(window, k)) > budget {
      if k == |window| {
        assert Last(window, k) == window;
      } else {
        LastOfLast(window, k, |rest|);
      }
    }
  }

  /** Main result: nothing is lost, and beyond the budget the window is the longest suffix of two or more
      of the permitted messages that fits, or else the last two of them. */
  lemma WindowConservesAndIsLongest(history: seq<Message>, budget: int, minKeep: int)
    ensures Window(history, budget, minKeep).1 + Window(history, budget, minKeep).0 == history
    ensures CountTokens(history) > budget && CutAt(|history|, minKeep) > 0 ==>
              LongestFit(history[CutAt(|history|, minKeep)..], Window(history, budget, minKeep).0, budget)
  {
    hide CountTokens, CutAt;
    var c := CutAt(|history|, minKeep);
    if CountTokens(history) > budget && c > 0 {
      TrimIsLongestFit(history[c..], budget);
      hide Trim;
      SplitWhere(history, c, Trim(history[c..], budget));
      hide LongestFit;
    }
  }

  lemma SplitWhere(history: seq<Message>, c: nat, recent: seq<Message>)
    requires c <= |history| && |recent| <= |history| - c && Last(history[c..], |recent|) == recent
    ensures history[..|history| - |recent|] + recent == history
  {
    assert history[c..] == Last(history, |history| - c);
    LastOfLast(history, |recent|, |history| - c);
  }

  /** The other reading of longest: three or more of the permitted messages are kept exactly when they fit. */
  lemma FitsIffKept(history: seq<Message>, budget: int, minKeep: int, k: nat)
    requires CountTokens(history) > budget && CutAt(|history|, minKeep) > 0
            && 2 < k <= |history| - CutAt(|history|, minKeep)
    ensures |Window(history, budget, minKeep).0| >= k <==> CountTokens(Last(history, k)) <= budget
  {
    WindowConservesAndIsLongest(history, budget, minKeep);
    hide CountTokens;
    var recent, c := Window(history, budget, minKeep).0, CutAt(|history|, minKeep);
    assert history[c..] == Last(history, |history| - c);
    LastOfLast(history, k, |history| - c);
    LastOfLast(history, |recent|, |history| - c);
    if |recent| >= k {
      LastOfLast(history, k, |recent|);
      SuffixCostsLess(recent, |recent| - k);
    }
  }

  /** Over budget, a positive keep count is the most that is kept, and two of them at least. */
  lemma KeepCountBounds(history: seq<Message>, budget: int, minKeep: int)
    requires CountTokens(history) > budget && 1 <= minKeep < |history|
    ensures var kept := |Window(history, budget, minKeep).0|; kept <= minKeep && (kept >= 2 || kept == minKeep)
  {
    WindowConservesAndIsLongest(history, budget, minKeep);
    hide CountTokens;
  }

  /** Exactly when the history comes back untouched with an empty list of dropped messages: it fits, or
      the keep count covers it all (zero does so by Python's slicing). */
  lemma UntouchedIff(history: seq<Message>, budget: int, minKeep: int)
    ensures Window(history, budget, minKeep) == (history, [])
        <==> history == [] || CountTokens(history) <= budget || minKeep == 0 || minKeep >= |history|
  {
    var c := CutAt(|history|, minKeep);
    if CountTokens(history) > budget && c > 0 {
      TrimIsLongestFit(history[c..], budget);
    }
  }
}
