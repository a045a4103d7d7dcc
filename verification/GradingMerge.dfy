/** Merging deterministic and remote grades of an assessment: choice and blank items keep their
    deterministic grade, open answers take the remote grades all together or not at all. */
module GradingMerge {
  import opened Prelude

  datatype Criterion = Criterion(id: string, maxPoints: nat, signals: seq<string>)
  datatype Item = Item(id: string, choice: bool, reference: string, rubric: seq<Criterion>)
  datatype CriterionGrade = CriterionGrade(id: string, points: nat, quote: string)
  datatype ItemGrade = ItemGrade(id: string, criteria: seq<CriterionGrade>, review: bool)
  datatype Context = Context(items: seq<Item>, answers: map<string, string>)

  datatype GraderMode = Hybrid | Remote | Deterministic
  datatype ItemMode = DeterministicExact | DeterministicFallback | ManualReview | RemoteStructured
  datatype Outcome = Graded(grades: seq<ItemGrade>, modes: map<string, ItemMode>, remote: bool) | Unavailable

  /** Python's `str.strip` and `str.casefold`; all that is used of the former is that it returns part of
      its argument. */
  datatype Text = Text(strip: string -> string, fold: string -> string) {
    ghost predicate Strips() {
      forall s :: Contains(s, strip(s))
    }
  }

  /** `part in text` */
  predicate Contains(text: string, part: string) {
    exists i | 0 <= i <= |text| :: part <= text[i..]
  }

  function Answer(ctx: Context, id: string): string {
    if id in ctx.answers then ctx.answers[id] else ""
  }

  predicate Blank(t: Text, ctx: Context, id: string) {
    t.strip(Answer(ctx, id)) == ""
  }

  /** The item is graded by the remote model if there is one. */
  predicate Open(t: Text, ctx: Context, item: Item) {
    !item.choice && !Blank(t, ctx, item.id)
  }

  // ---------------------------------------------------------------- validation

  function CriterionIds(rubric: seq<Criterion>): set<string> {
    set c | c in rubric :: c.id
  }

  function GradedCriteria(grades: seq<CriterionGrade>): set<string> {
    set g | g in grades :: g.id
  }

  /** One grade against its item: the criteria match one to one, no points beyond the maximum,
      every quote is part of the answer. */
  predicate GradeOk(ctx: Context, item: Item, grade: ItemGrade) {
    && GradedCriteria(grade.criteria) == CriterionIds(item.rubric)
    && |GradedCriteria(grade.criteria)| == |grade.criteria|
    && (forall g, c | g in grade.criteria && c in item.rubric && g.id == c.id :: g.points <= c.maxPoints)
    && (forall g | g in grade.criteria :: Contains(Answer(ctx, item.id), g.quote))
  }

  function GradeIds(grades: seq<ItemGrade>): set<string> {
    set g | g in grades :: g.id
  }

  function ItemIds(ctx: Context): set<string> {
    set item | item in ctx.items :: item.id
  }

  /** `validate_grade_bundle` does not raise. */
  predicate BundleOk(ctx: Context, grades: seq<ItemGrade>) {
    && GradeIds(grades) == ItemIds(ctx) && |GradeIds(grades)| == |grades|
    && forall item, g | item in ctx.items && g in grades && g.id == item.id :: GradeOk(ctx, item, g)
  }

  /** One deterministic grade per item, in item order. */
  predicate OnePerItem(ctx: Context, grades: seq<ItemGrade>) {
    |grades| == |ctx.items| && forall i | 0 <= i < |grades| :: grades[i].id == ctx.items[i].id
  }

  predicate DistinctItems(ctx: Context) {
    forall i, j | 0 <= i < j < |ctx.items| :: ctx.items[i].id != ctx.items[j].id
  }

  // ---------------------------------------------------------------- merging

  function OpenIds(t: Text, ctx: Context): set<string> {
    set item | item in ctx.items && Open(t, ctx, item) :: item.id
  }

  /** by_id = {grade.item_id: grade for grade in grades}, laid over `start`. */
  method ById(start: map<string, ItemGrade>, grades: seq<ItemGrade>) returns (byId: map<string, ItemGrade>)
    ensures byId.Keys == start.Keys + GradeIds(grades)
    ensures forall id | id in byId && id !in GradeIds(grades) :: byId[id] == start[id]
    ensures forall id | id in byId && id in GradeIds(grades) :: byId[id] in grades && byId[id].id == id
  {
    byId := start;
    for i := 0 to |grades|
      invariant byId.Keys == start.Keys + GradeIds(grades[..i])
      invariant forall id | id in byId && id !in GradeIds(grades[..i]) :: byId[id] == start[id]
      invariant forall id | id in byId && id in GradeIds(grades[..i]) :: byId[id] in grades[..i] && byId[id].id == id
    {
      assert grades[..i + 1] == grades[..i] + [grades[i]];
      assert GradeIds(grades[..i + 1]) == GradeIds(grades[..i]) + {grades[i].id};
      byId := byId[grades[i].id := grades[i]];
    }
    assert grades[..|grades|] == grades;
  }

  /** Grade `i` of the merged bundle: the remote one for an open item, the deterministic one otherwise. */
  ghost predicate MergedAt(t: Text, ctx: Context, det: seq<ItemGrade>, remote: seq<ItemGrade>, grades: seq<ItemGrade>,
                           i: nat)
    requires i < |ctx.items| && |det| == |grades| == |ctx.items|
  {
    if Open(t, ctx, ctx.items[i]) then grades[i] in remote && grades[i].id == ctx.items[i].id
    else grades[i] == det[i]
  }

  ghost predicate Merged(t: Text, ctx: Context, det: seq<ItemGrade>, remote: seq<ItemGrade>, grades: seq<ItemGrade>) {
    |det| == |grades| == |ctx.items| && forall i | 0 <= i < |ctx.items| :: MergedAt(t, ctx, det, remote, grades, i)
  }

  /** The remote grades name each open item once. */
  predicate Answers(t: Text, ctx: Context, remote: seq<ItemGrade>) {
    GradeIds(remote) == OpenIds(t, ctx) && |GradeIds(remote)| == |remote|
  }

  /** item_modes before a remote result is used. */
  function LocalMode(t: Text, ctx: Context, item: Item, grade: ItemGrade): ItemMode {
    if item.choice || Blank(t, ctx, item.id) then DeterministicExact
    else if grade.review then ManualReview else DeterministicFallback
  }

  ghost predicate ModesOk(t: Text, ctx: Context, det: seq<ItemGrade>, modes: map<string, ItemMode>, remote: bool) {
    && modes.Keys == ItemIds(ctx) && |det| == |ctx.items|
    && forall i | 0 <= i < |ctx.items| && ctx.items[i].id in modes ::
         modes[ctx.items[i].id] == if remote && Open(t, ctx, ctx.items[i]) then RemoteStructured
                                   else LocalMode(t, ctx, ctx.items[i], det[i])
  }

  method LocalModes(t: Text, ctx: Context, det: seq<ItemGrade>) returns (modes: map<string, ItemMode>)
    requires OnePerItem(ctx, det) && DistinctItems(ctx)
    ensures ModesOk(t, ctx, det, modes, false)
  {
    modes := map[];
    for i := 0 to |ctx.items|
      invariant forall id :: id in modes <==> exists k | 0 <= k < i :: ctx.items[k].id == id
      invariant forall k | 0 <= k < i :: modes[ctx.items[k].id] == LocalMode(t, ctx, ctx.items[k], det[k])
    {
      modes := modes[ctx.items[i].id := LocalMode(t, ctx, ctx.items[i], det[i])];
    }
  }

  lemma OpenById(t: Text, ctx: Context, i: nat)
    requires DistinctItems(ctx) && i < |ctx.items|
    ensures ctx.items[i].id in OpenIds(t, ctx) <==> Open(t, ctx, ctx.items[i])
  {
  }

  /** [by_id[item.item_id] for item in context.items] */
  method Bundle(t: Text, ctx: Context, det: seq<ItemGrade>, remote: seq<ItemGrade>) returns (bundle: seq<ItemGrade>)
    requires OnePerItem(ctx, det) && DistinctItems(ctx) && GradeIds(remote) == OpenIds(t, ctx)
    ensures Merged(t, ctx, det, remote, bundle)
  {
    var byId := ById(map[], det);
    byId := ById(byId, remote);
    bundle := [];
    for i := 0 to |ctx.items|
      invariant |bundle| == i
      invariant forall k | 0 <= k < i ::
        if Open(t, ctx, ctx.items[k]) then bundle[k] in remote && bundle[k].id == ctx.items[k].id
        else bundle[k] == det[k]
    {
      OpenById(t, ctx, i);
      DeterministicById(ctx, det, i);
      hide OpenIds, Open, GradeIds;
      bundle := bundle + [byId[ctx.items[i].id]];
    }
  }

  lemma DeterministicById(ctx: Context, det: seq<ItemGrade>, i: nat)
    requires OnePerItem(ctx, det) && DistinctItems(ctx) && i < |ctx.items|
    ensures ctx.items[i].id in GradeIds(det)
    ensures forall g | g in det && g.id == ctx.items[i].id :: g == det[i]
  {
    assert det[i] in det;
  }

  /** Whether the remote result replaces the open grades. */
  ghost predicate RemoteUsed(t: Text, ctx: Context, mode: GraderMode, remote: Option<seq<ItemGrade>>) {
    && mode != Deterministic && OpenIds(t, ctx) != {} && remote.Some? && Answers(t, ctx, remote.value)
    && forall item, g | item in ctx.items && g in remote.value && g.id == item.id :: GradeOk(ctx, item, g)
  }

  lemma {:induction false} DistinctIdsCount(grades: seq<ItemGrade>)
    requires forall i, j | 0 <= i < j < |grades| :: grades[i].id != grades[j].id
    ensures |GradeIds(grades)| == |grades|
  {
    if grades != [] {
      var last := |grades| - 1;
      DistinctIdsCount(grades[..last]);
      assert grades == grades[..last] + [grades[last]];
      assert GradeIds(grades) == GradeIds(grades[..last]) + {grades[last].id};
      assert grades[last].id !in GradeIds(grades[..last]);
    }
  }

  lemma {:induction false} CountMeansDistinct(grades: seq<ItemGrade>, i: nat, j: nat)
    requires |GradeIds(grades)| == |grades| && i < j < |grades|
    ensures grades[i].id != grades[j].id
    decreases |grades|
  {
    var last := |grades| - 1;
    var front := grades[..last];
    assert grades == front + [grades[last]];
    assert GradeIds(grades) == GradeIds(front) + {grades[last].id};
    IdsAtMost(front);
    assert grades[last].id in GradeIds(front) ==> GradeIds(grades) == GradeIds(front);
    if j < last {
      CountMeansDistinct(front, i, j);
    } else {
      assert grades[i] in front;
    }
  }

  lemma {:induction false} IdsAtMost(grades: seq<ItemGrade>)
    ensures |GradeIds(grades)| <= |grades|
  {
    if grades != [] {
      var last := |grades| - 1;
      IdsAtMost(grades[..last]);
      assert grades == grades[..last] + [grades[last]];
      assert GradeIds(grades) == GradeIds(grades[..last]) + {grades[last].id};
    }
  }

  /** Merged grades follow the items one by one. */
  lemma MergedOnePerItem(t: Text, ctx: Context, det: seq<ItemGrade>, remote: seq<ItemGrade>, grades: seq<ItemGrade>)
    requires OnePerItem(ctx, det) && Merged(t, ctx, det, remote, grades)
    ensures OnePerItem(ctx, grades)
  {
    forall i | 0 <= i < |grades| ensures grades[i].id == ctx.items[i].id {
      assert MergedAt(t, ctx, det, remote, grades, i);
    }
  }

  lemma OnePerItemCovers(ctx: Context, grades: seq<ItemGrade>)
    requires OnePerItem(ctx, grades) && DistinctItems(ctx)
    ensures GradeIds(grades) == ItemIds(ctx) && |GradeIds(grades)| == |grades|
  {
    DistinctIdsCount(grades);
    forall i | 0 <= i < |grades| ensures grades[i].id in ItemIds(ctx) && ctx.items[i].id in GradeIds(grades) {
      assert ctx.items[i] in ctx.items && grades[i] in grades;
    }
  }

  lemma OnePerItemIds(ctx: Context, grades: seq<ItemGrade>)
    requires OnePerItem(ctx, grades) && DistinctItems(ctx)
    ensures BundleOk(ctx, grades) <==> forall i | 0 <= i < |grades| :: GradeOk(ctx, ctx.items[i], grades[i])
  {
    hide GradeOk, GradeIds, ItemIds;
    OnePerItemCovers(ctx, grades);
    forall i | 0 <= i < |grades| ensures BundleOk(ctx, grades) ==> GradeOk(ctx, ctx.items[i], grades[i]) {
      assert ctx.items[i] in ctx.items && grades[i] in grades;
    }
  }

  /** Putting remote grades into a valid bundle keeps it valid if and only if each of them is
      valid for its own item. */
  lemma MergedIsOk(t: Text, ctx: Context, det: seq<ItemGrade>, remote: seq<ItemGrade>, grades: seq<ItemGrade>)
    requires OnePerItem(ctx, det) && DistinctItems(ctx) && BundleOk(ctx, det)
    requires Answers(t, ctx, remote) && Merged(t, ctx, det, remote, grades)
    ensures BundleOk(ctx, grades) <==>
      forall item, g | item in ctx.items && g in remote && g.id == item.id :: GradeOk(ctx, item, g)
  {
    MergedOnePerItem(t, ctx, det, remote, grades);
    OnePerItemIds(ctx, det);
    OnePerItemIds(ctx, grades);
    hide GradeOk, BundleOk, OnePerItem;
    if BundleOk(ctx, grades) {
      forall item, g | item in ctx.items && g in remote && g.id == item.id ensures GradeOk(ctx, item, g) {
        var i := RemoteGradeIsUsed(t, ctx, det, remote, grades, item, g);
      }
    }
    if forall item, g | item in ctx.items && g in remote && g.id == item.id :: GradeOk(ctx, item, g) {
      forall i | 0 <= i < |grades| ensures GradeOk(ctx, ctx.items[i], grades[i]) {
        assert MergedAt(t, ctx, det, remote, grades, i);
        assert ctx.items[i] in ctx.items;
      }
    }
  }

  lemma RemoteGradeIsUsed(t: Text, ctx: Context, det: seq<ItemGrade>, remote: seq<ItemGrade>, grades: seq<ItemGrade>,
                          item: Item, g: ItemGrade)
    returns (i: nat)
    requires DistinctItems(ctx) && Answers(t, ctx, remote) && Merged(t, ctx, det, remote, grades)
    requires item in ctx.items && g in remote && g.id == item.id
    ensures i < |ctx.items| && ctx.items[i] == item && grades[i] == g
  {
    i :| 0 <= i < |ctx.items| && ctx.items[i] == item;
    assert g.id in GradeIds(remote);
    OpenById(t, ctx, i);
    assert MergedAt(t, ctx, det, remote, grades, i);
    SameIdSameGrade(remote, grades[i], g);
  }

  lemma SameIdSameGrade(grades: seq<ItemGrade>, a: ItemGrade, b: ItemGrade)
    requires |GradeIds(grades)| == |grades| && a in grades && b in grades && a.id == b.id
    ensures a == b
  {
    var i :| 0 <= i < |grades| && grades[i] == a;
    var j :| 0 <= j < |grades| && grades[j] == b;
    if i < j {
      CountMeansDistinct(grades, i, j);
    } else if j < i {
      CountMeansDistinct(grades, j, i);
    }
  }

  /** `grade` once the deterministic grades are known: in hybrid mode it never fails; every bundle it
      returns has one valid grade per item in item order, and the modes say where each came from. */
  method UseRemote(t: Text, ctx: Context, mode: GraderMode, det: seq<ItemGrade>, remote: Option<seq<ItemGrade>>)
    returns (outcome: Outcome)
    requires OnePerItem(ctx, det) && DistinctItems(ctx) && BundleOk(ctx, det)
    ensures outcome.Graded? ==>
      && OnePerItem(ctx, outcome.grades) && BundleOk(ctx, outcome.grades)
      && ModesOk(t, ctx, det, outcome.modes, outcome.remote)
      && (outcome.remote <==> RemoteUsed(t, ctx, mode, remote))
      && (if outcome.remote then Merged(t, ctx, det, remote.value, outcome.grades) else outcome.grades == det)
    ensures outcome.Unavailable? <==> mode == Remote && OpenIds(t, ctx) != {} && !RemoteUsed(t, ctx, mode, remote)
  {
    var modes := LocalModes(t, ctx, det);
    var openIds := OpenIds(t, ctx);
    if openIds == {} || mode == Deterministic {
      return Graded(det, modes, false);
    }
    if remote.None? {
      return if mode == Remote then Unavailable else Graded(det, modes, false);
    }
    if GradeIds(remote.value) != openIds || |GradeIds(remote.value)| != |remote.value| {
      return if mode == Remote then Unavailable else Graded(det, modes, false);
    }
    var bundle := Bundle(t, ctx, det, remote.value);
    MergedIsOk(t, ctx, det, remote.value, bundle);
    MergedOnePerItem(t, ctx, det, remote.value, bundle);
    hide Merged, BundleOk, GradeOk, OnePerItem, OpenIds, LocalMode;
    if !BundleOk(ctx, bundle) {
      return if mode == Remote then Unavailable else Graded(det, modes, false);
    }
    RemoteModes(t, ctx, det, modes);
    modes := modes + map id | id in openIds :: RemoteStructured;
    return Graded(bundle, modes, true);
  }

  lemma RemoteModes(t: Text, ctx: Context, det: seq<ItemGrade>, modes: map<string, ItemMode>)
    requires DistinctItems(ctx) && ModesOk(t, ctx, det, modes, false)
    ensures ModesOk(t, ctx, det, modes + map id | id in OpenIds(t, ctx) :: RemoteStructured, true)
  {
    var modes' := modes + map id | id in OpenIds(t, ctx) :: RemoteStructured;
    forall i | 0 <= i < |ctx.items| ensures ctx.items[i].id in ItemIds(ctx) {
      assert ctx.items[i] in ctx.items;
    }
    forall i | 0 <= i < |ctx.items| && ctx.items[i].id in modes'
      ensures modes'[ctx.items[i].id] ==
        if Open(t, ctx, ctx.items[i]) then RemoteStructured else LocalMode(t, ctx, ctx.items[i], det[i])
    {
      OpenById(t, ctx, i);
    }
    assert modes'.Keys == ItemIds(ctx);
  }

  // ---------------------------------------------------------------- the deterministic grades

  /** The first non-empty signal of a criterion that occurs in the answer, both case-folded. */
  function Matched(t: Text, answer: string, signals: seq<string>): Option<string> {
    if signals == [] then None
    else if signals[0] != "" && Contains(t.fold(answer), t.fold(signals[0])) then Some(t.fold(signals[0]))
    else Matched(t, answer, signals[1..])
  }

  function GradeCriterion(t: Text, ctx: Context, item: Item, c: Criterion): CriterionGrade {
    var answer := Answer(ctx, item.id);
    if Blank(t, ctx, item.id) then CriterionGrade(c.id, 0, "")
    else if item.choice then
      if t.strip(answer) == item.reference then CriterionGrade(c.id, c.maxPoints, t.strip(answer))
      else CriterionGrade(c.id, 0, "")
    else match Matched(t, answer, c.signals)
      case Some(signal) => CriterionGrade(c.id, c.maxPoints, signal)
      case None => CriterionGrade(c.id, 0, "")
  }

  /** The grade `deterministic_grade` gives an item: one grade per criterion, for review if none rests on a signal. */
  ghost predicate GradedLocally(t: Text, ctx: Context, item: Item, grade: ItemGrade) {
    && grade.id == item.id && |grade.criteria| == |item.rubric|
    && (forall k | 0 <= k < |item.rubric| :: grade.criteria[k] == GradeCriterion(t, ctx, item, item.rubric[k]))
    && (grade.review <==> Open(t, ctx, item) && NoSignal(t, ctx, item))
  }

  predicate NoSignal(t: Text, ctx: Context, item: Item) {
    forall c | c in item.rubric :: Matched(t, Answer(ctx, item.id), c.signals).None?
  }

  method GradeItem(t: Text, ctx: Context, item: Item) returns (grade: ItemGrade)
    ensures GradedLocally(t, ctx, item, grade)
  {
    var grades: seq<CriterionGrade> := [];
    var reliable := !Open(t, ctx, item);
    for k := 0 to |item.rubric|
      invariant |grades| == k
      invariant forall j | 0 <= j < k :: grades[j] == GradeCriterion(t, ctx, item, item.rubric[j])
      invariant reliable <==>
        !Open(t, ctx, item) || exists j | 0 <= j < k :: Matched(t, Answer(ctx, item.id), item.rubric[j].signals).Some?
    {
      var c := item.rubric[k];
      grades := grades + [GradeCriterion(t, ctx, item, c)];
      if Matched(t, Answer(ctx, item.id), c.signals).Some? {
        reliable := true;
      }
    }
    grade := ItemGrade(item.id, grades, !reliable);
  }

  /** Signal `k` is not empty and, case-folded, part of the case-folded answer. */
  predicate Hits(t: Text, answer: string, signals: seq<string>, k: nat)
    requires k < |signals|
  {
    signals[k] != "" && Contains(t.fold(answer), t.fold(signals[k]))
  }

  predicate FirstHit(t: Text, answer: string, signals: seq<string>, k: nat)
    requires k < |signals|
  {
    Hits(t, answer, signals, k) && forall j | 0 <= j < k :: !Hits(t, answer, signals, j)
  }

  /** Behind a signal that does not hit, the first hit stays the first one. */
  lemma FirstHitShifts(t: Text, answer: string, signals: seq<string>, k: nat)
    requires signals != [] && k < |signals| - 1 && !Hits(t, answer, signals, 0)
    ensures Hits(t, answer, signals[1..], k) <==> Hits(t, answer, signals, k + 1)
    ensures FirstHit(t, answer, signals[1..], k) <==> FirstHit(t, answer, signals, k + 1)
  {
    var rest := signals[1..];
    forall j | 0 <= j < |rest| ensures Hits(t, answer, rest, j) <==> Hits(t, answer, signals, j + 1) {
      assert rest[j] == signals[j + 1];
    }
    hide Hits;
    if FirstHit(t, answer, rest, k) {
      forall j | 0 <= j < k + 1 ensures !Hits(t, answer, signals, j) {
        assert j > 0 ==> !Hits(t, answer, rest, j - 1);
      }
    }
    if FirstHit(t, answer, signals, k + 1) {
      forall j | 0 <= j < k ensures !Hits(t, answer, rest, j) {
        assert !Hits(t, answer, signals, j + 1);
      }
    }
  }

  /** The first hit is what counts. */
  lemma {:induction false} MatchedIs(t: Text, answer: string, signals: seq<string>)
    ensures Matched(t, answer, signals).Some? <==> exists k | 0 <= k < |signals| :: FirstHit(t, answer, signals, k)
    ensures Matched(t, answer, signals).Some? <==> exists k | 0 <= k < |signals| :: Hits(t, answer, signals, k)
    ensures forall k | 0 <= k < |signals| && FirstHit(t, answer, signals, k) ::
      Matched(t, answer, signals) == Some(t.fold(signals[k]))
  {
    if signals != [] {
      var rest := signals[1..];
      MatchedIs(t, answer, rest);
      if Hits(t, answer, signals, 0) {
        assert FirstHit(t, answer, signals, 0);
      } else {
        assert Matched(t, answer, signals) == Matched(t, answer, rest);
        hide Matched, Contains, Hits, FirstHit;
        forall k | 0 <= k < |rest|
          ensures Hits(t, answer, rest, k) <==> Hits(t, answer, signals, k + 1)
          ensures FirstHit(t, answer, rest, k) <==> FirstHit(t, answer, signals, k + 1)
        {
          FirstHitShifts(t, answer, signals, k);
        }
        MoveHits(t, answer, signals);
      }
    }
  }

  /** What holds of the hits in the rest holds of the hits behind the first signal. */
  lemma MoveHits(t: Text, answer: string, signals: seq<string>)
    requires signals != [] && !Hits(t, answer, signals, 0)
    requires forall k | 0 <= k < |signals| - 1 ::
      Hits(t, answer, signals[1..], k) <==> Hits(t, answer, signals, k + 1)
    requires forall k | 0 <= k < |signals| - 1 ::
      FirstHit(t, answer, signals[1..], k) <==> FirstHit(t, answer, signals, k + 1)
    ensures (exists k | 0 <= k < |signals| :: Hits(t, answer, signals, k)) <==>
      exists k | 0 <= k < |signals| - 1 :: Hits(t, answer, signals[1..], k)
    ensures (exists k | 0 <= k < |signals| :: FirstHit(t, answer, signals, k)) <==>
      exists k | 0 <= k < |signals| - 1 :: FirstHit(t, answer, signals[1..], k)
    ensures forall k | 0 <= k < |signals| && FirstHit(t, answer, signals, k) ::
      k > 0 && FirstHit(t, answer, signals[1..], k - 1)
  {
    assert forall k | 0 <= k < |signals| && FirstHit(t, answer, signals, k) :: Hits(t, answer, signals, k);
    hide Hits, FirstHit;
    if k :| 0 <= k < |signals| && Hits(t, answer, signals, k) {
      assert Hits(t, answer, signals[1..], k - 1);
    }
    if k :| 0 <= k < |signals| && FirstHit(t, answer, signals, k) {
      assert FirstHit(t, answer, signals[1..], k - 1);
    }
  }

  /** The answer earns the points of a criterion: a choice by being the reference, apart from
      surrounding white space, an open answer by holding a signal of the criterion. */
  ghost predicate Earns(t: Text, answer: string, item: Item, c: Criterion) {
    && t.strip(answer) != ""
    && if item.choice then t.strip(answer) == item.reference
       else exists k | 0 <= k < |c.signals| :: Hits(t, answer, c.signals, k)
  }

  /** All points or none, and a quote for what was earned: the stripped choice, or the first signal that hits. */
  lemma CriterionEarns(t: Text, ctx: Context, item: Item, c: Criterion)
    ensures var answer, grade := Answer(ctx, item.id), GradeCriterion(t, ctx, item, c);
      && grade.id == c.id && grade.points == (if Earns(t, answer, item, c) then c.maxPoints else 0)
      && (!Earns(t, answer, item, c) ==> grade.quote == "")
      && (Earns(t, answer, item, c) && item.choice ==> grade.quote == t.strip(answer))
      && (Earns(t, answer, item, c) && !item.choice ==>
            forall k | 0 <= k < |c.signals| && FirstHit(t, answer, c.signals, k) ::
              grade.quote == t.fold(c.signals[k]))
  {
    MatchedIs(t, Answer(ctx, item.id), c.signals);
    hide Matched, Hits, FirstHit;
  }

  /** The grade of an item in terms of its answer. */
  ghost predicate EarnedGrade(t: Text, answer: string, item: Item, grade: ItemGrade) {
    && grade.id == item.id && |grade.criteria| == |item.rubric|
    && (forall k | 0 <= k < |item.rubric| ::
          && grade.criteria[k].id == item.rubric[k].id
          && grade.criteria[k].points == if Earns(t, answer, item, item.rubric[k]) then item.rubric[k].maxPoints else 0)
    && (grade.review <==>
          t.strip(answer) != "" && !item.choice && forall c | c in item.rubric :: !Earns(t, answer, item, c))
  }

  lemma LocallyEarned(t: Text, ctx: Context, item: Item, grade: ItemGrade)
    requires GradedLocally(t, ctx, item, grade)
    ensures EarnedGrade(t, Answer(ctx, item.id), item, grade)
  {
    hide GradeCriterion;
    forall c: Criterion
      ensures var answer := Answer(ctx, item.id);
        && GradeCriterion(t, ctx, item, c).id == c.id
        && GradeCriterion(t, ctx, item, c).points == (if Earns(t, answer, item, c) then c.maxPoints else 0)
        && (Open(t, ctx, item) ==> (Matched(t, answer, c.signals).Some? <==> Earns(t, answer, item, c)))
    {
      CriterionEarns(t, ctx, item, c);
      MatchedIs(t, Answer(ctx, item.id), c.signals);
      hide Matched;
    }
    hide Earns, Matched;
  }

  /** The quote of a matched signal, which is case-folded, stands literally in the answer. */
  predicate Quotable(t: Text, ctx: Context, item: Item) {
    Open(t, ctx, item) ==>
      forall c | c in item.rubric && Matched(t, Answer(ctx, item.id), c.signals).Some? ::
        Contains(Answer(ctx, item.id), Matched(t, Answer(ctx, item.id), c.signals).value)
  }

  lemma {:induction false} CriteriaCount(rubric: seq<Criterion>, grades: seq<CriterionGrade>)
    requires |rubric| == |grades| && forall k | 0 <= k < |rubric| :: grades[k].id == rubric[k].id
    ensures GradedCriteria(grades) == CriterionIds(rubric)
  {
    forall k | 0 <= k < |rubric|
      ensures grades[k].id in CriterionIds(rubric) && rubric[k].id in GradedCriteria(grades)
    {
      assert rubric[k] in rubric && grades[k] in grades;
    }
  }

  lemma ContainsEmpty(text: string)
    ensures Contains(text, "")
  {
    assert "" <= text[0..];
  }

  /** The deterministic grade of an item passes validation if and only if its criteria have
      different ids and every matched signal can be quoted. */
  lemma ItemGradeOk(t: Text, ctx: Context, item: Item, grade: ItemGrade)
    requires t.Strips() && GradedLocally(t, ctx, item, grade)
    ensures GradeOk(ctx, item, grade) <==> |CriterionIds(item.rubric)| == |item.rubric| && Quotable(t, ctx, item)
  {
    CriteriaCount(item.rubric, grade.criteria);
    ContainsEmpty(Answer(ctx, item.id));
    if |CriterionIds(item.rubric)| == |item.rubric| {
      PointsOk(t, ctx, item, grade);
      QuotesOk(t, ctx, item, grade);
    }
  }

  lemma QuotesOk(t: Text, ctx: Context, item: Item, grade: ItemGrade)
    requires t.Strips() && |grade.criteria| == |item.rubric|
    requires forall k | 0 <= k < |item.rubric| :: grade.criteria[k] == GradeCriterion(t, ctx, item, item.rubric[k])
    ensures (forall g | g in grade.criteria :: Contains(Answer(ctx, item.id), g.quote)) <==> Quotable(t, ctx, item)
  {
    var answer := Answer(ctx, item.id);
    ContainsEmpty(answer);
    assert Contains(answer, t.strip(answer));
    hide Contains, Matched;
    forall k | 0 <= k < |item.rubric|
      ensures Contains(answer, grade.criteria[k].quote) <==>
        || !Open(t, ctx, item) || Matched(t, answer, item.rubric[k].signals).None?
        || Contains(answer, Matched(t, answer, item.rubric[k].signals).value)
    {
    }
    if forall g | g in grade.criteria :: Contains(answer, g.quote) {
      forall c | c in item.rubric && Open(t, ctx, item) && Matched(t, answer, c.signals).Some?
        ensures Contains(answer, Matched(t, answer, c.signals).value)
      {
        var k :| 0 <= k < |item.rubric| && item.rubric[k] == c;
        assert grade.criteria[k] in grade.criteria;
      }
    }
    if Quotable(t, ctx, item) {
      forall g | g in grade.criteria ensures Contains(answer, g.quote) {
        var k :| 0 <= k < |grade.criteria| && grade.criteria[k] == g;
        assert item.rubric[k] in item.rubric;
      }
    }
  }

  lemma {:induction false} RubricDistinct(rubric: seq<Criterion>, i: nat, j: nat)
    requires |CriterionIds(rubric)| == |rubric| && i < j < |rubric|
    ensures rubric[i].id != rubric[j].id
    decreases |rubric|
  {
    var last := |rubric| - 1;
    var front := rubric[..last];
    assert rubric == front + [rubric[last]];
    assert CriterionIds(rubric) == CriterionIds(front) + {rubric[last].id};
    RubricAtMost(front);
    assert rubric[last].id in CriterionIds(front) ==> CriterionIds(rubric) == CriterionIds(front);
    if j < last {
      RubricDistinct(front, i, j);
    } else {
      assert rubric[i] in front;
    }
  }

  lemma {:induction false} RubricAtMost(rubric: seq<Criterion>)
    ensures |CriterionIds(rubric)| <= |rubric|
  {
    if rubric != [] {
      var last := |rubric| - 1;
      RubricAtMost(rubric[..last]);
      assert rubric == rubric[..last] + [rubric[last]];
      assert CriterionIds(rubric) == CriterionIds(rubric[..last]) + {rubric[last].id};
    }
  }

  lemma PointsOk(t: Text, ctx: Context, item: Item, grade: ItemGrade)
    requires |CriterionIds(item.rubric)| == |item.rubric| == |grade.criteria|
    requires forall k | 0 <= k < |item.rubric| :: grade.criteria[k] == GradeCriterion(t, ctx, item, item.rubric[k])
    ensures forall g, c | g in grade.criteria && c in item.rubric && g.id == c.id :: g.points <= c.maxPoints
  {
    hide Contains, Matched, Open, Blank;
    forall g, c | g in grade.criteria && c in item.rubric && g.id == c.id ensures g.points <= c.maxPoints {
      var k :| 0 <= k < |grade.criteria| && grade.criteria[k] == g;
      var j :| 0 <= j < |item.rubric| && item.rubric[j] == c;
      if j < k {
        RubricDistinct(item.rubric, j, k);
      } else if k < j {
        RubricDistinct(item.rubric, k, j);
      }
    }
  }

  /** The deterministic grade of the item passes validation. */
  predicate ItemGradable(t: Text, ctx: Context, item: Item) {
    |CriterionIds(item.rubric)| == |item.rubric| && Quotable(t, ctx, item)
  }

  predicate Gradable(t: Text, ctx: Context) {
    DistinctItems(ctx) && forall item | item in ctx.items :: ItemGradable(t, ctx, item)
  }

  /** When a submission can be graded: ids do not repeat, and of each criterion of an item with an
      open answer the first signal that hits stands in the answer as it is case-folded. */
  lemma GradableExactly(t: Text, ctx: Context)
    ensures Gradable(t, ctx) <==>
      && (forall i, j | 0 <= i < j < |ctx.items| :: ctx.items[i].id != ctx.items[j].id)
      && (forall item | item in ctx.items :: |CriterionIds(item.rubric)| == |item.rubric|)
      && (forall item, c, k | item in ctx.items && c in item.rubric && 0 <= k < |c.signals|
                              && !item.choice && t.strip(Answer(ctx, item.id)) != ""
                              && FirstHit(t, Answer(ctx, item.id), c.signals, k) ::
            Contains(Answer(ctx, item.id), t.fold(c.signals[k])))
  {
    forall item, c: Criterion | item in ctx.items && c in item.rubric
      ensures var answer := Answer(ctx, item.id);
        && (Matched(t, answer, c.signals).Some? <==>
              exists k | 0 <= k < |c.signals| :: FirstHit(t, answer, c.signals, k))
        && (forall k | 0 <= k < |c.signals| && FirstHit(t, answer, c.signals, k) ::
              Matched(t, answer, c.signals) == Some(t.fold(c.signals[k])))
    {
      MatchedIs(t, Answer(ctx, item.id), c.signals);
    }
    hide Matched, Contains, FirstHit;
  }

  /** A bundle with one grade per item is valid if and only if no item id repeats and each grade is valid. */
  lemma BundleExactly(ctx: Context, grades: seq<ItemGrade>)
    requires OnePerItem(ctx, grades)
    ensures BundleOk(ctx, grades) <==>
      DistinctItems(ctx) && forall i | 0 <= i < |grades| :: GradeOk(ctx, ctx.items[i], grades[i])
  {
    if DistinctItems(ctx) {
      OnePerItemIds(ctx, grades);
    } else {
      var i, j :| 0 <= i < j < |ctx.items| && ctx.items[i].id == ctx.items[j].id;
      if |GradeIds(grades)| == |grades| {
        CountMeansDistinct(grades, i, j);
      }
    }
  }

  /** `deterministic_grade`: None stands for the error its own validation raises. */
  method DeterministicGrade(t: Text, ctx: Context) returns (grades: Option<seq<ItemGrade>>)
    requires t.Strips()
    ensures grades.Some? <==> Gradable(t, ctx)
    ensures grades.Some? ==> OnePerItem(ctx, grades.value) && BundleOk(ctx, grades.value)
    ensures grades.Some? ==> forall i | 0 <= i < |ctx.items| :: GradedLocally(t, ctx, ctx.items[i], grades.value[i])
    ensures grades.Some? ==> forall i | 0 <= i < |ctx.items| ::
      EarnedGrade(t, Answer(ctx, ctx.items[i].id), ctx.items[i], grades.value[i])
  {
    var result: seq<ItemGrade> := [];
    for i := 0 to |ctx.items|
      invariant |result| == i && forall k | 0 <= k < i :: GradedLocally(t, ctx, ctx.items[k], result[k])
      invariant forall k | 0 <= k < i :: GradeOk(ctx, ctx.items[k], result[k]) <==> ItemGradable(t, ctx, ctx.items[k])
    {
      var item := ctx.items[i];
      var grade := GradeItem(t, ctx, item);
      ItemGradeOk(t, ctx, item, grade);
      hide *;
      result := result + [grade];
    }
    BundleExactly(ctx, result);
    hide GradeOk, ItemGradable, BundleOk, DistinctItems, GradedLocally, EarnedGrade;
    forall k | 0 <= k < |ctx.items| ensures EarnedGrade(t, Answer(ctx, ctx.items[k].id), ctx.items[k], result[k]) {
      LocallyEarned(t, ctx, ctx.items[k], result[k]);
    }
    assert forall k | 0 <= k < |ctx.items| :: ctx.items[k] in ctx.items;
    if BundleOk(ctx, result) {
      return Some(result);
    }
    return None;
  }

  /** Item `i` of the outcome: its grade is the remote one if it is open and the remote result is used,
      and its deterministic one otherwise; the mode says so. */
  ghost predicate OutcomeAt(t: Text, ctx: Context, remote: Option<seq<ItemGrade>>, outcome: Outcome, i: nat)
    requires outcome.Graded? && i < |ctx.items| == |outcome.grades| && (outcome.remote ==> remote.Some?)
  {
    var item, grade := ctx.items[i], outcome.grades[i];
    && (if outcome.remote && Open(t, ctx, item) then grade in remote.value && grade.id == item.id
        else GradedLocally(t, ctx, item, grade) && EarnedGrade(t, Answer(ctx, item.id), item, grade))
    && item.id in outcome.modes
    && outcome.modes[item.id] ==
       if item.choice || t.strip(Answer(ctx, item.id)) == "" then DeterministicExact
       else if outcome.remote then RemoteStructured
       else if grade.review then ManualReview else DeterministicFallback
  }

  /** `grade`: None stands for the error of the deterministic grades, which comes first in every mode. */
  method Grade(t: Text, ctx: Context, mode: GraderMode, remote: Option<seq<ItemGrade>>)
    returns (outcome: Option<Outcome>)
    requires t.Strips()
    ensures outcome.None? <==> !Gradable(t, ctx)
    ensures outcome == Some(Unavailable) <==>
      Gradable(t, ctx) && mode == Remote && OpenIds(t, ctx) != {} && !RemoteUsed(t, ctx, mode, remote)
    ensures outcome.Some? && outcome.value.Graded? ==>
      && OnePerItem(ctx, outcome.value.grades) && BundleOk(ctx, outcome.value.grades)
      && (outcome.value.remote <==> RemoteUsed(t, ctx, mode, remote))
      && outcome.value.modes.Keys == ItemIds(ctx)
      && forall i | 0 <= i < |ctx.items| :: OutcomeAt(t, ctx, remote, outcome.value, i)
  {
    var det := DeterministicGrade(t, ctx);
    if det.None? {
      return None;
    }
    var result := UseRemote(t, ctx, mode, det.value, remote);
    if result.Graded? {
      forall i | 0 <= i < |ctx.items| ensures OutcomeAt(t, ctx, remote, result, i) {
        OutcomePoint(t, ctx, mode, det.value, remote, result, i);
      }
    }
    hide *;
    return Some(result);
  }

  lemma OutcomePoint(t: Text, ctx: Context, mode: GraderMode, det: seq<ItemGrade>, remote: Option<seq<ItemGrade>>,
                     outcome: Outcome, i: nat)
    requires outcome.Graded? && i < |ctx.items| == |outcome.grades| == |det| && (outcome.remote ==> remote.Some?)
    requires ModesOk(t, ctx, det, outcome.modes, outcome.remote) && GradedLocally(t, ctx, ctx.items[i], det[i])
    requires if outcome.remote then Merged(t, ctx, det, remote.value, outcome.grades) else outcome.grades == det
    ensures OutcomeAt(t, ctx, remote, outcome, i)
  {
    LocallyEarned(t, ctx, ctx.items[i], det[i]);
    hide NoSignal, Blank, GradeCriterion, EarnedGrade;
    assert ctx.items[i] in ctx.items;
    assert outcome.remote ==> MergedAt(t, ctx, det, remote.value, outcome.grades, i);
  }

  const SHOUTED := Context([Item("q", false, "", [Criterion("c", 10, ["base case"])])], map["q" := "Base case"])

  /** A correct answer that differs from its signal in case only cannot be quoted, so `Grade` fails
      in every mode: the quote is the folded signal, not the answer's own words. */
  lemma FoldedSignalIsNotQuotable(t: Text)
    requires t.fold("Base case") == "base case" == t.fold("base case") && t.strip("Base case") == "Base case"
    ensures !Gradable(t, SHOUTED)
  {
    var item, answer := SHOUTED.items[0], "Base case";
    assert item in SHOUTED.items;
    assert Answer(SHOUTED, "q") == answer && Open(t, SHOUTED, item);
    assert "base case" <= "base case"[0..];
    assert Contains("base case", "base case");
    var c := item.rubric[0];
    assert c in item.rubric && Matched(t, answer, c.signals) == Some("base case");
    forall i | 0 <= i <= |answer| ensures !("base case" <= answer[i..]) {
      assert i == 0 ==> answer[i..][0] == 'B';
    }
  }
}
