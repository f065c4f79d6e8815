/** Fitting the planner's prompt into its budget: the truncation of `format_planner_prompt` in
    agentflow/graph/context_builder.py, over any list of sections. */
module PromptBudget {

  import opened Lists

  datatype Section = Section(content: string, tier: int)

  const CORE_TIER := 4

  /** Blocks separated by an empty line. */
  function JoinBlocks(xs: seq<string>): string {
    if xs == [] then ""
    else if |xs| == 1 then xs[0]
    else JoinBlocks(xs[..|xs| - 1]) + "\n\n" + xs[|xs| - 1]
  }

  function Contents(sections: seq<Section>): (r: seq<string>)
    ensures |r| == |sections| && forall i :: 0 <= i < |r| ==> r[i] == sections[i].content
  {
    seq(|sections|, i requires 0 <= i < |sections| => sections[i].content)
  }

  /** `int(max_chars * 1.05)`. */
  function Limit(maxChars: nat): nat {
    105 * maxChars / 100
  }

  predicate Fits(kept: seq<string>, section: Section, limit: nat) {
    |JoinBlocks(kept + [section.content])| <= limit || section.tier == CORE_TIER
  }

  /** What is kept of the first `n` sections. */
  function Kept(sections: seq<Section>, limit: nat, n: nat): seq<string>
    requires n <= |sections|
  {
    if n == 0 then []
    else
      var front := Kept(sections, limit, n - 1);
      if Fits(front, sections[n - 1], limit) then front + [sections[n - 1].content] else front
  }

  /** Section `i` is left out: it is not core and does not fit behind what is kept before it. */
  predicate Dropped(sections: seq<Section>, limit: nat, i: nat)
    requires i < |sections|
  {
    !Fits(Kept(sections, limit, i), sections[i], limit)
  }

  function DroppedTiers(sections: seq<Section>, limit: nat, n: nat): set<int>
    requires n <= |sections|
  {
    if n == 0 then {}
    else DroppedTiers(sections, limit, n - 1) + if Dropped(sections, limit, n - 1) then {sections[n - 1].tier} else {}
  }

  function Body(sections: seq<Section>, maxChars: nat): string {
    if |JoinBlocks(Contents(sections))| <= maxChars then JoinBlocks(Contents(sections))
    else JoinBlocks(Kept(sections, Limit(maxChars), |sections|))
  }

  /** The tiers the closing note speaks of; none, no note. */
  function Omitted(sections: seq<Section>, maxChars: nat): set<int> {
    if |JoinBlocks(Contents(sections))| <= maxChars then {} else DroppedTiers(sections, Limit(maxChars), |sections|)
  }

  /** `format_planner_prompt`, from the section list on. */
  method FormatPlannerPrompt(sections: seq<Section>, maxChars: nat, note: set<int> -> string) returns (result: string)
    ensures var omitted := Omitted(sections, maxChars);
            result == Body(sections, maxChars) + if omitted == {} then "" else note(omitted)
  {
    hide JoinBlocks, Contents;
    var allText := JoinBlocks(Contents(sections));
    if |allText| <= maxChars {
      return allText;
    }
    var truncated: seq<string> := [];
    var droppedTiers: set<int> := {};
    for n := 0 to |sections|
      invariant truncated == Kept(sections, Limit(maxChars), n)
      invariant droppedTiers == DroppedTiers(sections, Limit(maxChars), n)
    {
      var candidate := JoinBlocks(truncated + [sections[n].content]);
      if |candidate| <= Limit(maxChars) {
        truncated := truncated + [sections[n].content];
      } else if sections[n].tier == CORE_TIER {
        truncated := truncated + [sections[n].content];
      } else {
        droppedTiers := droppedTiers + {sections[n].tier};
      }
    }
    result := JoinBlocks(truncated);
    if droppedTiers != {} {
      result := result + note(droppedTiers);
    }
  }

  // ---------------------------------------------------------------- which sections survive

  function KeptIndices(sections: seq<Section>, limit: nat, n: nat): (r: seq<nat>)
    requires n <= |sections|
    ensures forall k :: 0 <= k < |r| ==> r[k] < n
  {
    if n == 0 then [] else KeptIndices(sections, limit, n - 1) + if Dropped(sections, limit, n - 1) then [] else [n - 1]
  }

  /** Main result: the survivors are the undropped sections in their own order, every core section among
      them. */
  lemma {:induction false} SurvivorsInOrder(sections: seq<Section>, limit: nat, n: nat)
    requires n <= |sections|
    ensures Kept(sections, limit, n) == Pick(Contents(sections), KeptIndices(sections, limit, n))
    ensures Rising(KeptIndices(sections, limit, n))
    ensures forall i: nat :: i in KeptIndices(sections, limit, n) <==> i < n && !Dropped(sections, limit, i)
    ensures forall i: nat :: i < n && sections[i].tier == CORE_TIER ==> i in KeptIndices(sections, limit, n)
  {
    KeptIsPicked(sections, limit, n);
    IndicesShape(sections, limit, n);
    hide Kept, JoinBlocks, KeptIndices, Contents;
  }

  lemma {:induction false} KeptIsPicked(sections: seq<Section>, limit: nat, n: nat)
    requires n <= |sections|
    ensures Kept(sections, limit, n) == Pick(Contents(sections), KeptIndices(sections, limit, n))
  {
    hide JoinBlocks, Contents;
    if n > 0 {
      KeptIsPicked(sections, limit, n - 1);
      SnocIndex(sections, limit, n);
      hide Dropped, Kept, Fits;
    }
  }

  lemma {:induction false} IndicesShape(sections: seq<Section>, limit: nat, n: nat)
    requires n <= |sections|
    ensures Rising(KeptIndices(sections, limit, n))
    ensures forall i: nat :: i in KeptIndices(sections, limit, n) <==> i < n && !Dropped(sections, limit, i)
  {
    hide Dropped;
    if n > 0 {
      IndicesShape(sections, limit, n - 1);
    }
  }

  predicate Rising(xs: seq<nat>) {
    forall i, j :: 0 <= i < j < |xs| ==> xs[i] < xs[j]
  }

  /** The note names exactly the tiers of the sections left out. */
  lemma {:induction false} NoteNamesTheLost(sections: seq<Section>, limit: nat, n: nat)
    requires n <= |sections|
    ensures forall t :: t in DroppedTiers(sections, limit, n)
                        <==> exists i: nat :: i < n && Dropped(sections, limit, i) && sections[i].tier == t
  {
    hide Dropped;
    if n > 0 {
      NoteNamesTheLost(sections, limit, n - 1);
    }
  }

  lemma SnocIndex(sections: seq<Section>, limit: nat, n: nat)
    requires 0 < n <= |sections|
    ensures Kept(sections, limit, n)
            == Kept(sections, limit, n - 1) + if Dropped(sections, limit, n - 1) then [] else [sections[n - 1].content]
    ensures sections[n - 1].tier == CORE_TIER ==> !Dropped(sections, limit, n - 1)
  {
  }

  /** The limit is five per cent above the budget, rounded down; blocks are joined by an empty line. */
  lemma LimitIs(maxChars: nat, xs: seq<string>, x: string)
    ensures 100 * Limit(maxChars) <= 105 * maxChars < 100 * (Limit(maxChars) + 1) && maxChars <= Limit(maxChars)
    ensures JoinBlocks([]) == "" && JoinBlocks([x]) == x
    ensures xs != [] ==> JoinBlocks(xs + [x]) == JoinBlocks(xs) + "\n\n" + x
  {
    assert (xs + [x])[..|xs|] == xs;
  }

  /** Whatever the budget, the body is the survivors under that limit, and the note's tiers are those of the
      others: a text within the budget loses nothing. */
  lemma BodyIsSurvivors(sections: seq<Section>, maxChars: nat)
    ensures Body(sections, maxChars) == JoinBlocks(Kept(sections, Limit(maxChars), |sections|))
    ensures Omitted(sections, maxChars) == DroppedTiers(sections, Limit(maxChars), |sections|)
  {
    LimitIs(maxChars, [], "");
    hide Limit, Kept, DroppedTiers, JoinBlocks;
    if |JoinBlocks(Contents(sections))| <= maxChars {
      NoneDropped(sections, Limit(maxChars), |sections|);
      assert sections[..|sections|] == sections;
      NoTiersDropped(sections, Limit(maxChars), |sections|);
    }
  }

  lemma {:induction false} NoTiersDropped(sections: seq<Section>, limit: nat, n: nat)
    requires n <= |sections| && |JoinBlocks(Contents(sections))| <= limit
    ensures DroppedTiers(sections, limit, n) == {}
  {
    hide Dropped, JoinBlocks;
    if n > 0 {
      NoTiersDropped(sections, limit, n - 1);
      NoneDropped(sections, limit, n);
    }
  }

  // ---------------------------------------------------------------- how long the body gets

  lemma JoinGrows(xs: seq<string>, x: string)
    ensures |JoinBlocks(xs)| <= |JoinBlocks(xs + [x])|
    ensures |JoinBlocks(xs + [x])| == |JoinBlocks(xs)| + |x| + if xs == [] then 0 else 2
  {
    assert (xs + [x])[..|xs|] == xs;
  }

  /** From section `m` on there are no core sections, so nothing more is added past the limit. */
  lemma {:induction false} BodyBound(sections: seq<Section>, limit: nat, m: nat, n: nat)
    requires m <= n <= |sections| && forall i :: m <= i < n ==> sections[i].tier != CORE_TIER
    ensures |JoinBlocks(Kept(sections, limit, n))| <= limit || Kept(sections, limit, n) == Kept(sections, limit, m)
  {
    if n > m {
      BodyBound(sections, limit, m, n - 1);
    }
  }

  /** Tiers come from the core down, as the source lists them. */
  ghost predicate TiersFall(sections: seq<Section>) {
    && (forall i :: 0 <= i < |sections| ==> sections[i].tier <= CORE_TIER)
    && (forall i, j :: 0 <= i < j < |sections| ==> sections[i].tier >= sections[j].tier)
  }

  function CoreCount(sections: seq<Section>): (m: nat)
    ensures m <= |sections| && (forall i :: 0 <= i < m ==> sections[i].tier == CORE_TIER)
    ensures m < |sections| ==> sections[m].tier != CORE_TIER
  {
    if sections != [] && sections[0].tier == CORE_TIER then 1 + CoreCount(sections[1..]) else 0
  }

  lemma {:induction false} CoreIsKept(sections: seq<Section>, limit: nat, m: nat)
    requires m <= |sections| && forall i :: 0 <= i < m ==> sections[i].tier == CORE_TIER
    ensures Kept(sections, limit, m) == Contents(sections[..m])
  {
    hide *;
    if m == 0 {
      NothingYet(sections, limit);
    } else {
      SnocIndex(sections, limit, m);
      ContentsSnoc(sections, m);
      CoreIsKept(sections, limit, m - 1);
    }
  }

  /** Main result: the body is within the limit, or it is the core sections and nothing else. */
  lemma BodyWithinLimitOrCore(sections: seq<Section>, maxChars: nat)
    requires TiersFall(sections)
    ensures |Body(sections, maxChars)| <= Limit(maxChars)
            || Body(sections, maxChars) == JoinBlocks(Contents(sections[..CoreCount(sections)]))
  {
    var m := CoreCount(sections);
    BodyBound(sections, Limit(maxChars), m, |sections|);
    CoreIsKept(sections, Limit(maxChars), m);
  }

  lemma ContentsSnoc(sections: seq<Section>, n: nat)
    requires 0 < n <= |sections|
    ensures Contents(sections[..n]) == Contents(sections[..n - 1]) + [sections[n - 1].content]
  {
  }

  lemma NothingYet(sections: seq<Section>, limit: nat)
    ensures Kept(sections, limit, 0) == Contents(sections[..0])
  {
  }

  lemma {:induction false} AllKept(sections: seq<Section>, limit: nat, n: nat)
    requires n <= |sections| && forall i: nat :: i < n ==> !Dropped(sections, limit, i)
    ensures Kept(sections, limit, n) == Contents(sections[..n])
  {
    hide *;
    if n == 0 {
      NothingYet(sections, limit);
    } else {
      AllKept(sections, limit, n - 1);
      SnocIndex(sections, limit, n);
      ContentsSnoc(sections, n);
    }
  }

  lemma {:induction false} PrefixFits(sections: seq<Section>, limit: nat, n: nat)
    requires n <= |sections| && |JoinBlocks(Contents(sections))| <= limit
    ensures |JoinBlocks(Contents(sections[..n]))| <= limit
    decreases |sections| - n
  {
    if n < |sections| {
      hide Contents, JoinBlocks;
      PrefixFits(sections, limit, n + 1);
      ContentsSnoc(sections, n + 1);
      JoinGrows(Contents(sections[..n]), sections[n].content);
    } else {
      assert sections[..n] == sections;
    }
  }

  lemma FitsIsKept(sections: seq<Section>, limit: nat, n: nat)
    requires 0 < n <= |sections| && |JoinBlocks(Kept(sections, limit, n - 1) + [sections[n - 1].content])| <= limit
    ensures !Dropped(sections, limit, n - 1)
  {
    hide Kept, JoinBlocks;
  }

  lemma {:induction false} NoneDropped(sections: seq<Section>, limit: nat, n: nat)
    requires n <= |sections| && |JoinBlocks(Contents(sections))| <= limit
    ensures Kept(sections, limit, n) == Contents(sections[..n])
    ensures n > 0 ==> !Dropped(sections, limit, n - 1)
  {
    hide *;
    if n == 0 {
      NothingYet(sections, limit);
    } else {
      NoneDropped(sections, limit, n - 1);
      PrefixFits(sections, limit, n);
      ContentsSnoc(sections, n);
      FitsIsKept(sections, limit, n);
      SnocIndex(sections, limit, n);
    }
  }

  /** Exactly when nothing is left out: the whole text fits the limit, or it is all core. */
  lemma NothingDroppedIff(sections: seq<Section>, limit: nat)
    requires TiersFall(sections)
    ensures (forall i: nat :: i < |sections| ==> !Dropped(sections, limit, i))
        <==> |JoinBlocks(Contents(sections))| <= limit || CoreCount(sections) == |sections|
  {
    var n := |sections|;
    if |JoinBlocks(Contents(sections))| <= limit {
      forall i: nat | i < n ensures !Dropped(sections, limit, i) {
        NoneDropped(sections, limit, i + 1);
      }
    } else if CoreCount(sections) < n && forall i: nat :: i < n - 1 ==> !Dropped(sections, limit, i) {
      LastIsDropped(sections, limit);
    }
  }

  lemma LastIsDropped(sections: seq<Section>, limit: nat)
    requires sections != [] && sections[|sections| - 1].tier != CORE_TIER && |JoinBlocks(Contents(sections))| > limit
    requires forall i: nat :: i < |sections| - 1 ==> !Dropped(sections, limit, i)
    ensures Dropped(sections, limit, |sections| - 1)
  {
    var n := |sections| - 1;
    AllKept(sections, limit, n);
    assert Contents(sections[..n]) + [sections[n].content] == Contents(sections);
  }

  // ---------------------------------------------------------------- lower tiers first?

  /** No kept section is of a lower tier than a dropped one. */
  ghost predicate TiersRespected(sections: seq<Section>, limit: nat) {
    forall i: nat, j: nat ::
      i < |sections| && j < |sections| && Dropped(sections, limit, i) && !Dropped(sections, limit, j)
      ==> sections[i].tier <= sections[j].tier
  }

  /** `i` is the first section left out and `t` is where its tier ends. */
  ghost predicate FirstLoss(sections: seq<Section>, limit: nat, i: nat, t: nat) {
    && i < t <= |sections| && Dropped(sections, limit, i) && (forall k: nat :: k < i ==> !Dropped(sections, limit, k))
    && sections[t - 1].tier == sections[i].tier && (t < |sections| ==> sections[t].tier < sections[i].tier)
  }

  lemma {:induction false} NothingMoreKept(sections: seq<Section>, limit: nat, t: nat, n: nat)
    requires t <= n <= |sections| && forall k: nat :: t <= k < n ==> Dropped(sections, limit, k)
    ensures Kept(sections, limit, n) == Kept(sections, limit, t)
  {
    if n > t {
      NothingMoreKept(sections, limit, t, n - 1);
      SnocIndex(sections, limit, n);
    }
  }

  /** The documented rule that lower tiers go first holds exactly when, once a section is lost, no section
      of a lower tier fits behind what its tier leaves: a large section can be lost while a small one of a
      lower tier stays. */
  lemma TiersRespectedIff(sections: seq<Section>, limit: nat, i: nat, t: nat)
    requires TiersFall(sections) && FirstLoss(sections, limit, i, t)
    ensures TiersRespected(sections, limit)
        <==> forall m: nat :: t <= m < |sections|
                              ==> |JoinBlocks(Kept(sections, limit, t) + [sections[m].content])| > limit
  {
    if m: nat :| t <= m < |sections| && |JoinBlocks(Kept(sections, limit, t) + [sections[m].content])| <= limit {
      LowerTierSurvives(sections, limit, i, t, m);
    } else {
      NoLowerTierSurvives(sections, limit, i, t);
    }
  }

  lemma LowerTierSurvives(sections: seq<Section>, limit: nat, i: nat, t: nat, m: nat)
    requires TiersFall(sections) && FirstLoss(sections, limit, i, t)
    requires t <= m < |sections| && |JoinBlocks(Kept(sections, limit, t) + [sections[m].content])| <= limit
    ensures !TiersRespected(sections, limit)
  {
    var k: nat := m;
    if forall k: nat :: t <= k < m ==> Dropped(sections, limit, k) {
      NothingMoreKept(sections, limit, t, m);
    } else {
      k :| t <= k < m && !Dropped(sections, limit, k);
    }
    hide Dropped, Kept;
    assert Dropped(sections, limit, i) && !Dropped(sections, limit, k) && sections[k].tier < sections[i].tier;
  }

  lemma NoLowerTierSurvives(sections: seq<Section>, limit: nat, i: nat, t: nat)
    requires TiersFall(sections) && FirstLoss(sections, limit, i, t)
    requires forall m: nat :: t <= m < |sections|
                              ==> |JoinBlocks(Kept(sections, limit, t) + [sections[m].content])| > limit
    ensures TiersRespected(sections, limit)
  {
    forall b: nat | t <= b < |sections| ensures Dropped(sections, limit, b) {
      AllDroppedFrom(sections, limit, t, b);
    }
    hide Dropped, Kept;
  }

  lemma {:induction false} AllDroppedFrom(sections: seq<Section>, limit: nat, t: nat, b: nat)
    requires TiersFall(sections) && t <= b < |sections| && sections[t].tier < CORE_TIER
    requires forall m: nat :: t <= m < |sections|
                              ==> |JoinBlocks(Kept(sections, limit, t) + [sections[m].content])| > limit
    ensures Dropped(sections, limit, b) && Kept(sections, limit, b) == Kept(sections, limit, t)
  {
    hide JoinBlocks;
    if b > t {
      AllDroppedFrom(sections, limit, t, b - 1);
    }
  }

  /** Such a prompt exists: the tier 3 section goes, the tier 1 section stays. */
  lemma LowerTierOutlivesHigher(goal: string, large: string, small: string, limit: nat)
    requires |goal| + 2 + |small| <= limit < |goal| + 2 + |large|
    ensures var s := [Section(goal, 4), Section(large, 3), Section(small, 1)];
            TiersFall(s) && Dropped(s, limit, 1) && !Dropped(s, limit, 2)
  {
    var s := [Section(goal, 4), Section(large, 3), Section(small, 1)];
    assert Kept(s, limit, 1) == [goal] by {
      assert Kept(s, limit, 0) == [];
    }
    JoinGrows([], goal);
    assert [] + [goal] == [goal];
    JoinGrows([goal], large);
    assert Kept(s, limit, 2) == [goal];
    JoinGrows([goal], small);
  }
}
