/** Rank metrics of a retrieval run: which gold anchors are covered, at which rank each is hit
    first, and when the normalised discounted gain stays below one. The logarithmic discount is
    replaced by any positive discount that does not increase with the rank. */
module RetrievalMetrics {
  import opened Prelude

  datatype Chunk = Chunk(tokens: int, anchors: set<string>)
  datatype Metrics = Metrics(hit: real, recall: real, mrr: real, ndcg: real, density: real, tokens: int)
  type Discount = nat -> real

  ghost predicate IsDiscount(d: Discount) {
    && (forall r: nat :: d(r) > 0.0)
    && (forall r: nat, q: nat | r <= q :: d(q) <= d(r))
  }

  // ---------------------------------------------------------------- sums over sets

  /** The sum of `f` over a finite set, in any order. */
  ghost function Sum(s: set<string>, f: string -> real): real
    decreases |s|
  {
    if s == {} then 0.0 else
      var x :| x in s;
      f(x) + Sum(s - {x}, f)
  }

  lemma {:induction false} SumPick(s: set<string>, f: string -> real, x: string)
    requires x in s
    ensures Sum(s, f) == f(x) + Sum(s - {x}, f)
    decreases |s|
  {
    var y :| y in s && Sum(s, f) == f(y) + Sum(s - {y}, f);
    if y != x {
      SumPick(s - {y}, f, x);
      SumPick(s - {x}, f, y);
      assert s - {y} - {x} == s - {x} - {y};
    }
  }

  lemma {:induction false} SumUnion(a: set<string>, b: set<string>, f: string -> real)
    requires a !! b
    ensures Sum(a + b, f) == Sum(a, f) + Sum(b, f)
    decreases |b|
  {
    if b == {} {
      assert a + b == a;
    } else {
      var x :| x in b;
      SumPick(b, f, x);
      SumPick(a + b, f, x);
      assert a + b - {x} == a + (b - {x});
      SumUnion(a, b - {x}, f);
    }
  }

  lemma {:induction false} SumSame(s: set<string>, f: string -> real, g: string -> real)
    requires forall x | x in s :: f(x) == g(x)
    ensures Sum(s, f) == Sum(s, g)
    decreases |s|
  {
    if s != {} {
      var x :| x in s;
      SumPick(s, f, x);
      SumPick(s, g, x);
      SumSame(s - {x}, f, g);
    }
  }

  /** x + ... + x, `n` times. */
  function Times(n: nat, x: real): real {
    if n == 0 then 0.0 else Times(n - 1, x) + x
  }

  lemma {:induction false} SumConstant(s: set<string>, f: string -> real, c: real)
    requires forall x | x in s :: f(x) == c
    ensures Sum(s, f) == Times(|s|, c)
    decreases |s|
  {
    if s != {} {
      var x :| x in s;
      SumPick(s, f, x);
      SumConstant(s - {x}, f, c);
    }
  }

  /** A loop that adds `f(x)` for the elements of `s` in any order. */
  method SumOver(s: set<string>, f: string -> real) returns (total: real)
    ensures total == Sum(s, f)
  {
    var left := s;
    total := 0.0;
    while left != {}
      invariant left <= s && total + Sum(left, f) == Sum(s, f)
      decreases left
    {
      var x :| x in left;
      SumPick(left, f, x);
      total := total + f(x);
      left := left - {x};
    }
  }

  // ---------------------------------------------------------------- what the metrics mean

  /** The gold anchors that some selected chunk covers. */
  function Covered(selected: seq<Chunk>, gold: set<string>): set<string> {
    if selected == [] then {} else
      Covered(selected[..|selected| - 1], gold) + selected[|selected| - 1].anchors * gold
  }

  lemma {:induction false} CoveredIs(selected: seq<Chunk>, gold: set<string>, a: string)
    ensures a in Covered(selected, gold) <==> a in gold && exists i | 0 <= i < |selected| :: a in selected[i].anchors
  {
    if selected != [] {
      var last := |selected| - 1;
      CoveredIs(selected[..last], gold, a);
      if i :| 0 <= i < |selected| && a in selected[i].anchors && i < last {
        assert a in selected[..last][i].anchors;
      }
    }
  }

  lemma CoveredIsGold(selected: seq<Chunk>, gold: set<string>)
    ensures Covered(selected, gold) <= gold
  {
    forall a | a in Covered(selected, gold) ensures a in gold {
      CoveredIs(selected, gold, a);
    }
  }

  /** The rank of the first selected chunk that covers the anchor, 0 if there is none. */
  function FirstRank(selected: seq<Chunk>, anchor: string): nat {
    if selected == [] then 0 else
      var before := FirstRank(selected[..|selected| - 1], anchor);
      if before > 0 then before
      else if anchor in selected[|selected| - 1].anchors then |selected| else 0
  }

  lemma {:induction false} FirstRankIs(selected: seq<Chunk>, anchor: string)
    ensures var rank := FirstRank(selected, anchor);
      && (rank == 0 <==> forall i | 0 <= i < |selected| :: anchor !in selected[i].anchors)
      && (rank > 0 ==> rank <= |selected| && anchor in selected[rank - 1].anchors
                       && forall i | 0 <= i < rank - 1 :: anchor !in selected[i].anchors)
  {
    if selected != [] {
      FirstRankIs(selected[..|selected| - 1], anchor);
    }
  }

  /** A covered anchor has a first rank and that is where its chunk stands. */
  lemma CoveredHasRank(selected: seq<Chunk>, gold: set<string>, a: string)
    requires a in Covered(selected, gold)
    ensures 1 <= FirstRank(selected, a) <= |selected|
  {
    CoveredIs(selected, gold, a);
    FirstRankIs(selected, a);
  }

  /** Some gold anchor is covered at this rank. */
  predicate Hits(selected: seq<Chunk>, gold: set<string>, rank: nat) {
    0 < rank <= |selected| && selected[rank - 1].anchors * gold != {}
  }

  function Tokens(selected: seq<Chunk>): int {
    if selected == [] then 0 else
      var t := selected[|selected| - 1].tokens;
      Tokens(selected[..|selected| - 1]) + if t > 0 then t else 0
  }

  /** What an anchor contributes. */
  function Gain(selected: seq<Chunk>, d: Discount): string -> real {
    a => d(FirstRank(selected, a))
  }

  ghost function Dcg(selected: seq<Chunk>, gold: set<string>, d: Discount): real {
    Sum(Covered(selected, gold), Gain(selected, d))
  }

  /** d(1) + ... + d(n) */
  function Ideal(n: nat, d: Discount): real {
    if n == 0 then 0.0 else Ideal(n - 1, d) + d(n)
  }

  /** min(len(gold), ranking_limit), as a count of ranks. */
  function IdealCount(gold: set<string>, limit: int): nat {
    if limit < 0 then 0 else if |gold| <= limit then |gold| else limit
  }

  ghost function Ndcg(selected: seq<Chunk>, gold: set<string>, limit: int, d: Discount): real {
    var ideal := Ideal(IdealCount(gold, limit), d);
    if ideal == 0.0 then 0.0 else Dcg(selected, gold, d) / ideal
  }

  function Recall(selected: seq<Chunk>, gold: set<string>): real {
    if gold == {} then 0.0 else |Covered(selected, gold)| as real / |gold| as real
  }

  /** Recall counts the gold anchors that some selected chunk covers. */
  lemma RecallIs(selected: seq<Chunk>, gold: set<string>)
    ensures var found := set a | a in gold && exists i | 0 <= i < |selected| :: a in selected[i].anchors;
      Recall(selected, gold) == if gold == {} then 0.0 else |found| as real / |gold| as real
  {
    var found := set a | a in gold && exists i | 0 <= i < |selected| :: a in selected[i].anchors;
    forall a ensures a in Covered(selected, gold) <==> a in found {
      CoveredIs(selected, gold, a);
    }
    hide Covered;
    assert Covered(selected, gold) == found;
  }

  /** The smallest rank at which some gold anchor is covered. */
  predicate FirstHitAt(selected: seq<Chunk>, gold: set<string>, rank: Option<nat>, n: nat) {
    match rank
    case None => forall r | 0 <= r <= n :: !Hits(selected, gold, r)
    case Some(r) => 1 <= r <= n && Hits(selected, gold, r) && forall q | 0 <= q < r :: !Hits(selected, gold, q)
  }

  ghost function EvidenceTokens(selected: seq<Chunk>, gold: set<string>, weight: string -> real): real {
    Sum(Covered(selected, gold), weight)
  }

  lemma OneMoreChunk(selected: seq<Chunk>, gold: set<string>, weight: string -> real, i: nat)
    requires i < |selected|
    ensures var before, matched := Covered(selected[..i], gold), selected[i].anchors * gold;
      && Covered(selected[..i + 1], gold) == before + (matched - before)
      && EvidenceTokens(selected[..i + 1], gold, weight) ==
           EvidenceTokens(selected[..i], gold, weight) + Sum(matched - before, weight)
      && Tokens(selected[..i + 1]) == Tokens(selected[..i]) + if selected[i].tokens > 0 then selected[i].tokens else 0
  {
    assert selected[..i + 1][..i] == selected[..i];
    var before, matched := Covered(selected[..i], gold), selected[i].anchors * gold;
    SumUnion(before, matched - before, weight);
  }

  /** The first loop of `_retrieval_metrics`: running totals, each anchor's tokens counted when it is newly covered. */
  method Scan(selected: seq<Chunk>, gold: set<string>, weight: string -> real)
    returns (covered: set<string>, firstRank: Option<nat>, totalTokens: int, evidenceTokens: real)
    ensures covered == Covered(selected, gold) && FirstHitAt(selected, gold, firstRank, |selected|)
    ensures totalTokens == Tokens(selected) && evidenceTokens == EvidenceTokens(selected, gold, weight)
  {
    covered, firstRank, totalTokens, evidenceTokens := {}, None, 0, 0.0;
    for i := 0 to |selected|
      invariant covered == Covered(selected[..i], gold) && FirstHitAt(selected, gold, firstRank, i)
      invariant totalTokens == Tokens(selected[..i]) && evidenceTokens == EvidenceTokens(selected[..i], gold, weight)
    {
      hide Covered, Tokens, EvidenceTokens;
      OneMoreChunk(selected, gold, weight, i);
      var chunk := selected[i];
      totalTokens := totalTokens + if chunk.tokens > 0 then chunk.tokens else 0;
      var matched := chunk.anchors * gold;
      var newlyCovered := matched - covered;
      if matched != {} && firstRank.None? {
        firstRank := Some(i + 1);
      }
      covered := covered + newlyCovered;
      var more := SumOver(newlyCovered, weight);
      evidenceTokens := evidenceTokens + more;
    }
    assert selected[..|selected|] == selected;
  }

  lemma {:induction false} TokensNonNegative(selected: seq<Chunk>)
    ensures Tokens(selected) >= 0
  {
    if selected != [] {
      TokensNonNegative(selected[..|selected| - 1]);
    }
  }

  /** `_retrieval_metrics` */
  method Score(selected: seq<Chunk>, gold: set<string>, limit: int, anchorTokens: string -> int, d: Discount)
    returns (m: Metrics, ghost firstRank: Option<nat>)
    ensures m.hit == if Covered(selected, gold) == {} then 0.0 else 1.0
    ensures m.recall == Recall(selected, gold)
    ensures m.hit == 0.0 <==> forall i | 0 <= i < |selected| :: selected[i].anchors * gold == {}
    ensures firstRank.None? <==> forall i | 0 <= i < |selected| :: selected[i].anchors * gold == {}
    ensures firstRank.Some? ==>
      && 1 <= firstRank.value <= |selected| && selected[firstRank.value - 1].anchors * gold != {}
      && forall i | 0 <= i < firstRank.value - 1 :: selected[i].anchors * gold == {}
    ensures m.mrr == if firstRank.Some? && firstRank.value > 0 then 1.0 / firstRank.value as real else 0.0
    ensures m.ndcg == Ndcg(selected, gold, limit, d)
    ensures m.tokens == Tokens(selected) >= 0
    ensures m.density == if m.tokens == 0 then 0.0
                         else EvidenceTokens(selected, gold, a => anchorTokens(a) as real) / m.tokens as real
  {
    var weight := a => anchorTokens(a) as real;
    hide Covered, Tokens, EvidenceTokens, Ndcg, FirstHitAt;
    var covered, rank, totalTokens, evidenceTokens := Scan(selected, gold, weight);
    firstRank := rank;
    TokensNonNegative(selected);
    var recall := if gold != {} then |covered| as real / |gold| as real else 0.0;
    var ndcg := GainRatio(selected, gold, limit, d);
    m := Metrics(
      if covered != {} then 1.0 else 0.0,
      recall,
      if rank.Some? && rank.value > 0 then 1.0 / rank.value as real else 0.0,
      ndcg,
      if totalTokens != 0 then evidenceTokens / totalTokens as real else 0.0,
      totalTokens);
    HitIs(selected, gold, rank);
  }

  lemma HitIs(selected: seq<Chunk>, gold: set<string>, rank: Option<nat>)
    requires FirstHitAt(selected, gold, rank, |selected|)
    ensures Covered(selected, gold) == {} <==> forall i | 0 <= i < |selected| :: selected[i].anchors * gold == {}
    ensures rank.None? <==> forall i | 0 <= i < |selected| :: selected[i].anchors * gold == {}
    ensures rank.Some? ==>
      && 1 <= rank.value <= |selected| && selected[rank.value - 1].anchors * gold != {}
      && forall i | 0 <= i < rank.value - 1 :: selected[i].anchors * gold == {}
  {
    forall i | 0 <= i < |selected| ensures Hits(selected, gold, i + 1) <==> selected[i].anchors * gold != {} {
    }
    forall a | a in Covered(selected, gold) ensures exists i | 0 <= i < |selected| :: a in selected[i].anchors * gold {
      CoveredIs(selected, gold, a);
    }
    forall i, a | 0 <= i < |selected| && a in selected[i].anchors * gold ensures a in Covered(selected, gold) {
      CoveredIs(selected, gold, a);
    }
    hide Covered;
  }

  /** The gain of the first hits over the gain of an ideal ranking. */
  method GainRatio(selected: seq<Chunk>, gold: set<string>, limit: int, d: Discount) returns (ratio: real)
    ensures ratio == Ndcg(selected, gold, limit, d)
  {
    var firstHitRanks := FirstHits(selected, gold);
    var gain := a => if a in firstHitRanks then d(firstHitRanks[a]) else 0.0;
    var dcg := SumOver(firstHitRanks.Keys, gain);
    SumSame(firstHitRanks.Keys, gain, Gain(selected, d));
    var idealCount := IdealCount(gold, limit);
    var idcg := 0.0;
    for rank := 1 to idealCount + 1
      invariant idcg == Ideal(rank - 1, d)
    {
      idcg := idcg + d(rank);
    }
    ratio := if idcg != 0.0 then dcg / idcg else 0.0;
  }

  /** The `setdefault` loop: the first rank of every covered gold anchor. */
  method FirstHits(selected: seq<Chunk>, gold: set<string>) returns (ranks: map<string, nat>)
    ensures ranks.Keys == Covered(selected, gold)
    ensures forall a | a in ranks :: ranks[a] == FirstRank(selected, a) && 1 <= ranks[a] <= |selected|
  {
    ranks := map[];
    for i := 0 to |selected|
      invariant ranks.Keys == Covered(selected[..i], gold)
      invariant forall a | a in ranks :: ranks[a] == FirstRank(selected[..i], a) && 1 <= ranks[a] <= i
    {
      assert selected[..i + 1][..i] == selected[..i];
      NextRanks(selected, gold, i);
      ranks := SetDefaults(ranks, selected[i].anchors * gold, i + 1);
    }
    assert selected[..|selected|] == selected;
  }

  /** What one more chunk does to the first ranks. */
  lemma NextRanks(selected: seq<Chunk>, gold: set<string>, i: nat)
    requires i < |selected|
    ensures Covered(selected[..i + 1], gold) == Covered(selected[..i], gold) + selected[i].anchors * gold
    ensures forall a | a in Covered(selected[..i + 1], gold) ::
      FirstRank(selected[..i + 1], a) ==
        if a in Covered(selected[..i], gold) then FirstRank(selected[..i], a) else i + 1
  {
    assert selected[..i + 1][..i] == selected[..i];
    forall a | a in Covered(selected[..i + 1], gold)
      ensures FirstRank(selected[..i + 1], a) ==
        if a in Covered(selected[..i], gold) then FirstRank(selected[..i], a) else i + 1
    {
      CoveredIs(selected[..i], gold, a);
      FirstRankIs(selected[..i], a);
    }
  }

  /** for anchor in anchors: ranks.setdefault(anchor, rank) */
  method SetDefaults(ranks: map<string, nat>, anchors: set<string>, rank: nat) returns (ranks': map<string, nat>)
    ensures ranks'.Keys == ranks.Keys + anchors
    ensures forall a | a in ranks' :: ranks'[a] == if a in ranks then ranks[a] else rank
  {
    ranks' := ranks;
    var left := anchors;
    while left != {}
      invariant left <= anchors && ranks'.Keys == ranks.Keys + (anchors - left)
      invariant forall a | a in ranks' :: ranks'[a] == if a in ranks then ranks[a] else rank
      decreases left
    {
      var a :| a in left;
      left := left - {a};
      if a !in ranks' {
        ranks' := ranks'[a := rank];
      }
    }
  }

  // ---------------------------------------------------------------- the gain is at most the ideal one

  /** By every rank at most that many gold anchors have been hit. */
  ghost predicate Uncrowded(selected: seq<Chunk>, gold: set<string>) {
    forall j | 0 <= j <= |selected| :: |Covered(selected[..j], gold)| <= j
  }

  /** The anchors hit for the first time by chunk `j` (counting from 0). */
  function NewAt(selected: seq<Chunk>, gold: set<string>, j: nat): set<string>
    requires j < |selected|
  {
    selected[j].anchors * gold - Covered(selected[..j], gold)
  }

  lemma {:induction false} FirstRankStable(selected: seq<Chunk>, gold: set<string>, j: nat, a: string)
    requires j <= |selected| && a in Covered(selected[..j], gold)
    ensures FirstRank(selected, a) == FirstRank(selected[..j], a) <= j
    ensures a in Covered(selected, gold)
    decreases |selected|
  {
    if j == |selected| {
      assert selected[..j] == selected;
    } else {
      assert selected[..|selected| - 1][..j] == selected[..j];
      FirstRankStable(selected[..|selected| - 1], gold, j, a);
    }
    CoveredHasRank(selected[..j], gold, a);
  }

  lemma CoveredStep(selected: seq<Chunk>, gold: set<string>, j: nat)
    requires j < |selected|
    ensures Covered(selected[..j + 1], gold) == Covered(selected[..j], gold) + NewAt(selected, gold, j)
    ensures Covered(selected[..j], gold) !! NewAt(selected, gold, j)
    ensures |Covered(selected[..j + 1], gold)| == |Covered(selected[..j], gold)| + |NewAt(selected, gold, j)|
  {
    assert selected[..j + 1][..j] == selected[..j];
  }

  /** One more rank adds the discount of that rank for each anchor it hits first. */
  lemma DcgStep(selected: seq<Chunk>, gold: set<string>, d: Discount, j: nat)
    requires j < |selected|
    ensures Dcg(selected[..j + 1], gold, d) == Dcg(selected[..j], gold, d) + Times(|NewAt(selected, gold, j)|, d(j + 1))
  {
    CoveredStep(selected, gold, j);
    var known, added := Covered(selected[..j], gold), NewAt(selected, gold, j);
    var f, g := Gain(selected[..j + 1], d), Gain(selected[..j], d);
    forall a | a in known ensures f(a) == g(a) {
      KnownGain(selected, gold, d, j, a);
    }
    forall a | a in added ensures f(a) == d(j + 1) {
      NewRank(selected, gold, j, a);
    }
    SumUnion(known, added, f);
    SumSame(known, f, g);
    SumConstant(added, f, d(j + 1));
  }

  lemma KnownGain(selected: seq<Chunk>, gold: set<string>, d: Discount, j: nat, a: string)
    requires j < |selected| && a in Covered(selected[..j], gold)
    ensures Gain(selected[..j + 1], d)(a) == Gain(selected[..j], d)(a)
  {
    assert selected[..j + 1][..j] == selected[..j];
    FirstRankStable(selected[..j + 1], gold, j, a);
  }

  lemma NewRank(selected: seq<Chunk>, gold: set<string>, j: nat, a: string)
    requires j < |selected| && a in NewAt(selected, gold, j)
    ensures FirstRank(selected[..j + 1], a) == j + 1
  {
    assert selected[..j + 1][..j] == selected[..j];
    CoveredIs(selected[..j], gold, a);
    FirstRankIs(selected[..j], a);
  }

  lemma {:induction false} IdealStretch(n: nat, c: nat, q: nat, d: Discount)
    requires IsDiscount(d) && n + c <= q
    ensures Times(c, d(q)) <= Ideal(n + c, d) - Ideal(n, d)
  {
    if c > 0 {
      IdealStretch(n, c - 1, q, d);
      assert d(q) <= d(n + c);
    }
  }

  lemma {:induction false} IdealGrows(n: nat, m: nat, d: Discount)
    requires IsDiscount(d) && n <= m
    ensures 0.0 <= Ideal(n, d) <= Ideal(m, d) && (m > 0 ==> Ideal(m, d) > 0.0)
    decreases m
  {
    if m > 0 {
      IdealGrows(if n < m then n else m - 1, m - 1, d);
      assert d(m) > 0.0;
    }
  }

  lemma NothingCovered(selected: seq<Chunk>, gold: set<string>, d: Discount)
    ensures Covered(selected[..0], gold) == {} && Dcg(selected[..0], gold, d) == 0.0
  {
  }

  lemma StepBelowIdeal(before: real, after: real, n: nat, m: nat, c: nat, j: nat, d: Discount)
    requires IsDiscount(d) && before <= Ideal(n, d) && after == before + Times(c, d(j)) && m == n + c <= j
    ensures after <= Ideal(m, d)
  {
    hide IsDiscount, Ideal, Times;
    IdealStretch(n, c, j, d);
  }

  lemma UncrowdedAt(selected: seq<Chunk>, gold: set<string>, j: nat)
    requires Uncrowded(selected, gold) && j < |selected|
    ensures |Covered(selected[..j], gold)| + |NewAt(selected, gold, j)| <= j + 1
  {
    CoveredStep(selected, gold, j);
    hide Covered, NewAt;
    assert |Covered(selected[..j + 1], gold)| <= j + 1;
  }

  /** The gain of the first `j` ranks is at most the ideal gain of as many anchors as they cover. */
  ghost predicate BelowIdeal(selected: seq<Chunk>, gold: set<string>, d: Discount, j: nat)
    requires j <= |selected|
  {
    Dcg(selected[..j], gold, d) <= Ideal(|Covered(selected[..j], gold)|, d)
  }

  lemma BelowIdealStart(selected: seq<Chunk>, gold: set<string>, d: Discount)
    ensures BelowIdeal(selected, gold, d, 0)
  {
    hide Covered, Dcg;
    NothingCovered(selected, gold, d);
  }

  lemma BelowIdealStep(selected: seq<Chunk>, gold: set<string>, d: Discount, j: nat)
    requires IsDiscount(d) && Uncrowded(selected, gold) && j < |selected| && BelowIdeal(selected, gold, d, j)
    ensures BelowIdeal(selected, gold, d, j + 1)
  {
    hide Covered, NewAt, Dcg, IsDiscount, Times, Uncrowded, Ideal;
    UncrowdedAt(selected, gold, j);
    DcgStep(selected, gold, d, j);
    CoveredStep(selected, gold, j);
    var n, m, c := |Covered(selected[..j], gold)|, |Covered(selected[..j + 1], gold)|, |NewAt(selected, gold, j)|;
    var before, after := Dcg(selected[..j], gold, d), Dcg(selected[..j + 1], gold, d);
    StepBelowIdeal(before, after, n, m, c, j + 1, d);
  }

  lemma {:induction false} DcgBelowIdeal(selected: seq<Chunk>, gold: set<string>, d: Discount, j: nat)
    requires IsDiscount(d) && Uncrowded(selected, gold) && j <= |selected|
    ensures BelowIdeal(selected, gold, d, j)
  {
    hide BelowIdeal, IsDiscount, Uncrowded;
    if j == 0 {
      BelowIdealStart(selected, gold, d);
    } else {
      DcgBelowIdeal(selected, gold, d, j - 1);
      BelowIdealStep(selected, gold, d, j - 1);
    }
  }

  lemma CoveredIsBounded(selected: seq<Chunk>, gold: set<string>, limit: int)
    requires Uncrowded(selected, gold) && |selected| <= limit
    ensures |Covered(selected, gold)| <= IdealCount(gold, limit)
  {
    assert selected[..|selected|] == selected;
    CoveredIsGold(selected, gold);
    SubsetSize(Covered(selected, gold), gold);
  }

  lemma {:induction false} SubsetSize(a: set<string>, b: set<string>)
    requires a <= b
    ensures |a| <= |b|
    decreases |a|
  {
    if a != {} {
      var x :| x in a;
      SubsetSize(a - {x}, b - {x});
    }
  }

  lemma RatioGrows(x: real, y: real, g: real)
    requires x <= y && g > 0.0
    ensures x / g <= y / g
  {
  }

  lemma NdcgAtMostOne(selected: seq<Chunk>, gold: set<string>, limit: int, d: Discount)
    requires IsDiscount(d) && Uncrowded(selected, gold) && |selected| <= limit
    ensures Ndcg(selected, gold, limit, d) <= 1.0
  {
    hide Covered, Dcg, IsDiscount, Uncrowded, Ideal, IdealCount;
    assert selected[..|selected|] == selected;
    DcgBelowIdeal(selected, gold, d, |selected|);
    CoveredIsBounded(selected, gold, limit);
    IdealGrows(|Covered(selected, gold)|, IdealCount(gold, limit), d);
  }

  /** A discount that is 1 up to rank `j` and a small `e` after it. */
  function Steep(j: nat, e: real): Discount {
    (r: nat) => if r <= j then 1.0 else e
  }

  lemma {:induction false} SteepIdeal(j: nat, e: real, n: nat)
    requires 0.0 < e <= 1.0
    ensures Ideal(n, Steep(j, e)) <= j as real + Times(n, e)
  {
    if n > 0 {
      SteepIdeal(j, e, n - 1);
      if n <= j {
        SteepLow(j, e, n);
        TimesNonNegative(n, e);
      }
    }
  }

  lemma {:induction false} TimesNonNegative(n: nat, x: real)
    requires x >= 0.0
    ensures Times(n, x) >= 0.0
  {
    if n > 0 {
      TimesNonNegative(n - 1, x);
    }
  }

  lemma {:induction false} TimesIs(n: nat, x: real)
    ensures Times(n, x) == n as real * x
  {
    if n > 0 {
      TimesIs(n - 1, x);
    }
  }

  lemma {:induction false} SteepLow(j: nat, e: real, n: nat)
    requires n <= j
    ensures Ideal(n, Steep(j, e)) == n as real
  {
    if n > 0 {
      SteepLow(j, e, n - 1);
    }
  }

  lemma {:induction false} SumNonNegative(s: set<string>, f: string -> real)
    requires forall x | x in s :: f(x) >= 0.0
    ensures Sum(s, f) >= 0.0
    decreases |s|
  {
    if s != {} {
      var x :| x in s;
      SumPick(s, f, x);
      SumNonNegative(s - {x}, f);
    }
  }

  lemma SteepDcg(selected: seq<Chunk>, gold: set<string>, j: nat, e: real)
    requires j <= |selected| && 0.0 < e
    ensures Dcg(selected, gold, Steep(j, e)) >= |Covered(selected[..j], gold)| as real
  {
    var d := Steep(j, e);
    var early, all := Covered(selected[..j], gold), Covered(selected, gold);
    var f := Gain(selected, d);
    forall a | a in early ensures a in all && f(a) == 1.0 {
      FirstRankStable(selected, gold, j, a);
    }
    assert forall a :: f(a) >= 0.0;
    assert all == early + (all - early);
    SumUnion(early, all - early, f);
    SumConstant(early, f, 1.0);
    TimesIs(|early|, 1.0);
    SumNonNegative(all - early, f);
  }

  lemma SteepIsDiscount(j: nat, e: real)
    requires 0.0 < e <= 1.0
    ensures IsDiscount(Steep(j, e))
  {
  }

  /** 1 / (m + 1), so that `m` of it stay below 1. */
  function Small(m: nat): (e: real)
    ensures 0.0 < e <= 1.0
  {
    1.0 / (m + 1) as real
  }

  lemma SmallSum(m: nat)
    ensures Times(m, Small(m)) < 1.0
  {
    hide Small;
    SmallIs(m);
    TimesIs(m + 1, Small(m));
  }

  lemma SmallIs(m: nat)
    ensures Small(m) == 1.0 / (m + 1) as real
  {
  }

  lemma CrowdedCounts(selected: seq<Chunk>, gold: set<string>, limit: int, j: nat)
    requires j <= |selected| <= limit && |Covered(selected[..j], gold)| > j
    ensures IdealCount(gold, limit) > 0
  {
    assert selected[..0] == [];
    CoveredIsGold(selected[..j], gold);
    SubsetSize(Covered(selected[..j], gold), gold);
  }

  /** When too many anchors are hit too early, some discount lifts the metric above one. */
  lemma CrowdedExceedsOne(selected: seq<Chunk>, gold: set<string>, limit: int, j: nat)
    requires j <= |selected| <= limit && |Covered(selected[..j], gold)| > j
    ensures var d := Steep(j, Small(IdealCount(gold, limit))); IsDiscount(d) && Ndcg(selected, gold, limit, d) > 1.0
  {
    hide Covered, Steep, Small, Dcg, IdealCount, Ideal, IsDiscount;
    var m := IdealCount(gold, limit);
    var d := Steep(j, Small(m));
    SteepIsDiscount(j, Small(m));
    CrowdedCounts(selected, gold, limit, j);
    SteepDcg(selected, gold, j, Small(m));
    SteepIdeal(j, Small(m), m);
    IdealGrows(0, m, d);
    SmallSum(m);
  }

  /** The exact condition: the metric is at most one for every discount if and only if by each
      rank at most that many gold anchors have been hit. */
  lemma NdcgAtMostOneExactly(selected: seq<Chunk>, gold: set<string>, limit: int)
    requires |selected| <= limit
    ensures (forall d | IsDiscount(d) :: Ndcg(selected, gold, limit, d) <= 1.0) <==> Uncrowded(selected, gold)
  {
    if Uncrowded(selected, gold) {
      forall d | IsDiscount(d) ensures Ndcg(selected, gold, limit, d) <= 1.0 {
        NdcgAtMostOne(selected, gold, limit, d);
      }
    } else {
      var j :| 0 <= j <= |selected| && |Covered(selected[..j], gold)| > j;
      CrowdedExceedsOne(selected, gold, limit, j);
    }
  }

  lemma {:induction false} OneAtATime(selected: seq<Chunk>, gold: set<string>, j: nat)
    requires j <= |selected|
    requires forall k, a, b | 0 <= k < |selected| && a in NewAt(selected, gold, k) && b in NewAt(selected, gold, k) ::
      a == b
    ensures |Covered(selected[..j], gold)| <= j
  {
    if j > 0 {
      OneAtATime(selected, gold, j - 1);
      CoveredStep(selected, gold, j - 1);
      var added := NewAt(selected, gold, j - 1);
      if added != {} {
        var a :| a in added;
        assert added == {a};
      }
    }
  }

  /** In particular it is at most one when no chunk is the first hit of two gold anchors. */
  lemma DistinctFirstHits(selected: seq<Chunk>, gold: set<string>, limit: int, d: Discount)
    requires IsDiscount(d) && |selected| <= limit
    requires forall k, a, b | 0 <= k < |selected| && a in NewAt(selected, gold, k) && b in NewAt(selected, gold, k) ::
      a == b
    ensures Ndcg(selected, gold, limit, d) <= 1.0
  {
    forall j | 0 <= j <= |selected| ensures |Covered(selected[..j], gold)| <= j {
      OneAtATime(selected, gold, j);
    }
    NdcgAtMostOne(selected, gold, limit, d);
  }

  /** A ranking whose every chunk is the first hit of one anchor, up to the ideal count, scores one. */
  lemma {:induction false} PerfectDcg(selected: seq<Chunk>, gold: set<string>, d: Discount, j: nat)
    requires j <= |selected| && forall k | 0 <= k < |selected| :: |NewAt(selected, gold, k)| == 1
    ensures Dcg(selected[..j], gold, d) == Ideal(j, d)
  {
    hide Covered, NewAt, Dcg;
    if j == 0 {
      NothingCovered(selected, gold, d);
    } else {
      PerfectDcg(selected, gold, d, j - 1);
      DcgStep(selected, gold, d, j - 1);
      assert Times(1, d(j)) == Times(0, d(j)) + d(j) == d(j);
    }
  }

  lemma PerfectIsOne(selected: seq<Chunk>, gold: set<string>, limit: int, d: Discount)
    requires IsDiscount(d) && selected != [] && |selected| == IdealCount(gold, limit)
    requires forall k | 0 <= k < |selected| :: |NewAt(selected, gold, k)| == 1
    ensures Ndcg(selected, gold, limit, d) == 1.0
  {
    hide Covered, NewAt, Dcg, Ideal, IdealCount, IsDiscount;
    PerfectDcg(selected, gold, d, |selected|);
    assert selected[..|selected|] == selected;
    IdealGrows(0, |selected|, d);
    RatioOfSame(Ideal(|selected|, d));
  }

  lemma RatioOfSame(x: real)
    requires x > 0.0
    ensures x / x == 1.0
  {
  }

  /** With one gold anchor the gain is the discount of the rank that first covers it, relative to the first rank. */
  lemma OneAnchor(selected: seq<Chunk>, a: string, limit: int, d: Discount)
    requires IsDiscount(d) && limit >= 1
    ensures (forall i | 0 <= i < |selected| :: a !in selected[i].anchors) ==> Ndcg(selected, {a}, limit, d) == 0.0
    ensures forall i | 0 <= i < |selected| && a in selected[i].anchors
                       && (forall j | 0 <= j < i :: a !in selected[j].anchors) ::
      Ndcg(selected, {a}, limit, d) == d(i + 1) / d(1)
  {
    FirstRankIs(selected, a);
    CoveredIs(selected, {a}, a);
    CoveredIsGold(selected, {a});
    IdealOfOne(d);
    assert IdealCount({a}, limit) == 1;
    hide Covered, IsDiscount, FirstRank, Ideal, IdealCount;
    if a in Covered(selected, {a}) {
      assert Covered(selected, {a}) == {a};
      SumPick({a}, Gain(selected, d), a);
      assert {a} - {a} == {};
    } else {
      assert Covered(selected, {a}) == {};
    }
  }

  lemma BothAtOnce()
    ensures NewAt([Chunk(7, {"a", "b"})], {"a", "b"}, 0) == {"a", "b"} && |{"a", "b"}| == 2
    ensures IdealCount({"a", "b"}, 1) == 1
  {
    assert [Chunk(7, {"a", "b"})][..0] == [];
  }

  lemma IdealOfOne(d: Discount)
    requires IsDiscount(d)
    ensures Ideal(1, d) == d(1) > 0.0 && Times(2, d(1)) == d(1) + d(1)
  {
    assert Ideal(1, d) == Ideal(0, d) + d(1);
    assert Times(2, d(1)) == Times(1, d(1)) + d(1);
  }

  /** Without that the metric can be 2 for every discount, the logarithmic one included. */
  lemma NdcgCanBeTwo(d: Discount)
    requires IsDiscount(d)
    ensures Ndcg([Chunk(7, {"a", "b"})], {"a", "b"}, 1, d) == 2.0
  {
    hide Covered, NewAt, Dcg, IsDiscount, IdealCount, Ideal, Times;
    var selected, gold := [Chunk(7, {"a", "b"})], {"a", "b"};
    assert selected[..1] == selected;
    BothAtOnce();
    NothingCovered(selected, gold, d);
    DcgStep(selected, gold, d, 0);
    IdealOfOne(d);
    Twice(d(1));
  }

  lemma Twice(x: real)
    requires x > 0.0
    ensures (x + x) / x == 2.0
  {
  }

  // ---------------------------------------------------------------- cutoffs and token budgets

  /** A longer selection covers at least as much. */
  lemma RecallGrows(ranked: seq<Chunk>, gold: set<string>, n: nat, m: nat)
    requires n <= m <= |ranked|
    ensures Recall(ranked[..n], gold) <= Recall(ranked[..m], gold)
    ensures Covered(ranked[..n], gold) <= Covered(ranked[..m], gold)
  {
    assert ranked[..m][..n] == ranked[..n];
    forall a | a in Covered(ranked[..n], gold) ensures a in Covered(ranked[..m], gold) {
      FirstRankStable(ranked[..m], gold, n, a);
    }
    SubsetSize(Covered(ranked[..n], gold), Covered(ranked[..m], gold));
    if gold != {} {
      RatioGrows(|Covered(ranked[..n], gold)| as real, |Covered(ranked[..m], gold)| as real, |gold| as real);
    }
  }

  function Used(ranked: seq<Chunk>, n: nat): int
    requires n <= |ranked|
  {
    if n == 0 then 0 else Used(ranked, n - 1) + ranked[n - 1].tokens
  }

  /** `n` chunks fit the budget one after the other, and the next one does not. */
  predicate FillsBudget(ranked: seq<Chunk>, budget: int, n: nat) {
    && n <= |ranked|
    && (forall k | 1 <= k <= n :: Used(ranked, k) <= budget)
    && (n < |ranked| ==> Used(ranked, n + 1) > budget)
  }

  /** The budget loop keeps the prefix before the first chunk that overflows. */
  method SelectWithin(ranked: seq<Chunk>, budget: int) returns (selected: seq<Chunk>)
    ensures selected <= ranked && FillsBudget(ranked, budget, |selected|)
  {
    selected := [];
    var used := 0;
    for i := 0 to |ranked|
      invariant selected == ranked[..i] && used == Used(ranked, i)
      invariant forall k | 1 <= k <= i :: Used(ranked, k) <= budget
    {
      if used + ranked[i].tokens > budget {
        break;
      }
      selected := selected + [ranked[i]];
      used := used + ranked[i].tokens;
    }
  }

  /** A larger budget never selects less, whatever the token counts. */
  lemma BudgetGrows(ranked: seq<Chunk>, budget: int, budget': int, n: nat, n': nat)
    requires budget <= budget' && FillsBudget(ranked, budget, n) && FillsBudget(ranked, budget', n')
    ensures n <= n'
  {
    var next: nat := if n' < |ranked| then n' + 1 else n';
    assert 1 <= next <= n ==> Used(ranked, next) <= budget;
  }

  /** Python's `ranked[:cutoff]`. */
  function Cut(ranked: seq<Chunk>, cutoff: int): seq<Chunk> {
    if cutoff >= 0 then (if cutoff <= |ranked| then ranked[..cutoff] else ranked)
    else if -cutoff <= |ranked| then ranked[..|ranked| + cutoff] else []
  }

  /** The loop over the cutoffs. */
  method ScoreCutoffs(ranked: seq<Chunk>, gold: set<string>, cutoffs: seq<int>, anchorTokens: string -> int,
                      d: Discount)
    returns (fixedK: seq<Metrics>)
    ensures |fixedK| == |cutoffs|
    ensures forall i | 0 <= i < |cutoffs| ::
      fixedK[i].recall == Recall(Cut(ranked, cutoffs[i]), gold)
        && fixedK[i].ndcg == Ndcg(Cut(ranked, cutoffs[i]), gold, cutoffs[i], d)
  {
    hide Recall, Ndcg, Cut;
    fixedK := [];
    for i := 0 to |cutoffs|
      invariant |fixedK| == i
      invariant forall k | 0 <= k < i ::
        fixedK[k].recall == Recall(Cut(ranked, cutoffs[k]), gold)
          && fixedK[k].ndcg == Ndcg(Cut(ranked, cutoffs[k]), gold, cutoffs[k], d)
    {
      var m, first := Score(Cut(ranked, cutoffs[i]), gold, cutoffs[i], anchorTokens, d);
      fixedK := fixedK + [m];
    }
  }

  /** How many chunks fit the budget, of those from position `i` on. */
  function FillFrom(ranked: seq<Chunk>, budget: int, i: nat): (n: nat)
    requires i <= |ranked|
    ensures i <= n <= |ranked|
    decreases |ranked| - i
  {
    if i == |ranked| || Used(ranked, i + 1) > budget then i else FillFrom(ranked, budget, i + 1)
  }

  lemma {:induction false} FillFromFills(ranked: seq<Chunk>, budget: int, i: nat)
    requires i <= |ranked| && forall k | 1 <= k <= i :: Used(ranked, k) <= budget
    ensures FillsBudget(ranked, budget, FillFrom(ranked, budget, i))
    decreases |ranked| - i
  {
    if i < |ranked| && Used(ranked, i + 1) <= budget {
      FillFromFills(ranked, budget, i + 1);
    }
  }

  /** The prefix that a budget selects; there is only one. */
  function Within(ranked: seq<Chunk>, budget: int): seq<Chunk> {
    ranked[..FillFrom(ranked, budget, 0)]
  }

  lemma WithinIsOnly(ranked: seq<Chunk>, budget: int, n: nat)
    requires FillsBudget(ranked, budget, n)
    ensures Within(ranked, budget) == ranked[..n] && FillsBudget(ranked, budget, |Within(ranked, budget)|)
  {
    FillFromFills(ranked, budget, 0);
    BudgetGrows(ranked, budget, budget, n, FillFrom(ranked, budget, 0));
    BudgetGrows(ranked, budget, budget, FillFrom(ranked, budget, 0), n);
  }

  /** The loop over the token budgets. */
  method ScoreBudgets(ranked: seq<Chunk>, gold: set<string>, budgets: seq<int>, anchorTokens: string -> int,
                      d: Discount)
    returns (fixedBudget: seq<Metrics>)
    ensures |fixedBudget| == |budgets|
    ensures forall i | 0 <= i < |budgets| ::
      && fixedBudget[i].recall == Recall(Within(ranked, budgets[i]), gold)
      && fixedBudget[i].ndcg == Ndcg(Within(ranked, budgets[i]), gold, |Within(ranked, budgets[i])|, d)
  {
    hide Recall, Ndcg, Within;
    fixedBudget := [];
    for i := 0 to |budgets|
      invariant |fixedBudget| == i
      invariant forall k | 0 <= k < i ::
        && fixedBudget[k].recall == Recall(Within(ranked, budgets[k]), gold)
        && fixedBudget[k].ndcg == Ndcg(Within(ranked, budgets[k]), gold, |Within(ranked, budgets[k])|, d)
    {
      var selected := SelectWithin(ranked, budgets[i]);
      assert ranked[..|selected|] == selected;
      WithinIsOnly(ranked, budgets[i], |selected|);
      var m, first := Score(selected, gold, |selected|, anchorTokens, d);
      fixedBudget := fixedBudget + [m];
    }
  }

  lemma WithinGrows(ranked: seq<Chunk>, gold: set<string>, budget: int, budget': int)
    requires budget <= budget'
    ensures Recall(Within(ranked, budget), gold) <= Recall(Within(ranked, budget'), gold)
  {
    FillFromFills(ranked, budget, 0);
    FillFromFills(ranked, budget', 0);
    BudgetGrows(ranked, budget, budget', FillFrom(ranked, budget, 0), FillFrom(ranked, budget', 0));
    RecallGrows(ranked, gold, FillFrom(ranked, budget, 0), FillFrom(ranked, budget', 0));
  }

  /** `score_ranked_chunks` for one query: recall never falls as the cutoff or the budget grows. */
  method ScoreRanked(ranked: seq<Chunk>, gold: set<string>, cutoffs: seq<int>, budgets: seq<int>,
                     anchorTokens: string -> int, d: Discount)
    returns (fixedK: seq<Metrics>, fixedBudget: seq<Metrics>)
    ensures |fixedK| == |cutoffs| && |fixedBudget| == |budgets|
    ensures forall i | 0 <= i < |cutoffs| && 0 <= cutoffs[i] <= |ranked| ::
      && fixedK[i].recall == Recall(ranked[..cutoffs[i]], gold)
      && fixedK[i].ndcg == Ndcg(ranked[..cutoffs[i]], gold, cutoffs[i], d)
    ensures forall i | 0 <= i < |cutoffs| && cutoffs[i] > |ranked| ::
      fixedK[i].recall == Recall(ranked, gold) && fixedK[i].ndcg == Ndcg(ranked, gold, cutoffs[i], d)
    ensures forall i, n: nat | 0 <= i < |budgets| && FillsBudget(ranked, budgets[i], n) ::
      && fixedBudget[i].recall == Recall(ranked[..n], gold)
      && fixedBudget[i].ndcg == Ndcg(ranked[..n], gold, n, d)
    ensures forall i, j | 0 <= i < |cutoffs| && 0 <= j < |cutoffs| && 0 <= cutoffs[i] <= cutoffs[j] ::
      fixedK[i].recall <= fixedK[j].recall
    ensures forall i, j | 0 <= i < |budgets| && 0 <= j < |budgets| && budgets[i] <= budgets[j] ::
      fixedBudget[i].recall <= fixedBudget[j].recall
  {
    hide Recall, Ndcg, Cut, Within;
    fixedK := ScoreCutoffs(ranked, gold, cutoffs, anchorTokens, d);
    fixedBudget := ScoreBudgets(ranked, gold, budgets, anchorTokens, d);
    forall c: int ensures 0 <= c <= |ranked| ==> Cut(ranked, c) == ranked[..c]
      ensures c > |ranked| ==> Cut(ranked, c) == ranked
    {
      CutIs(ranked, c);
    }
    forall i, n: nat | 0 <= i < |budgets| && FillsBudget(ranked, budgets[i], n)
      ensures Within(ranked, budgets[i]) == ranked[..n]
    {
      WithinIsOnly(ranked, budgets[i], n);
    }
    forall i, j | 0 <= i < |cutoffs| && 0 <= j < |cutoffs| && 0 <= cutoffs[i] <= cutoffs[j]
      ensures fixedK[i].recall <= fixedK[j].recall
    {
      CutGrows(ranked, gold, cutoffs[i], cutoffs[j]);
    }
    forall i, j | 0 <= i < |budgets| && 0 <= j < |budgets| && budgets[i] <= budgets[j]
      ensures fixedBudget[i].recall <= fixedBudget[j].recall
    {
      WithinGrows(ranked, gold, budgets[i], budgets[j]);
    }
  }

  lemma CutIs(ranked: seq<Chunk>, c: int)
    ensures 0 <= c <= |ranked| ==> Cut(ranked, c) == ranked[..c]
    ensures c > |ranked| ==> Cut(ranked, c) == ranked
  {
  }

  lemma CutGrows(ranked: seq<Chunk>, gold: set<string>, a: int, b: int)
    requires 0 <= a <= b
    ensures Recall(Cut(ranked, a), gold) <= Recall(Cut(ranked, b), gold)
  {
    var n, m := if a <= |ranked| then a else |ranked|, if b <= |ranked| then b else |ranked|;
    assert Cut(ranked, a) == ranked[..n] && Cut(ranked, b) == ranked[..m];
    RecallGrows(ranked, gold, n, m);
  }
}
