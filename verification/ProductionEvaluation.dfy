/** The A-versus-Best evaluation switches the active index versions of its documents and must put
    the active map back on every path: success, a failed retrieval, or an activation that raises. */
module ProductionEvaluation {
  import opened Prelude

  datatype Status = Building | Ready | Active | Retired | Failed
  datatype Version = Version(document: string, status: Status, completed: bool)
  type Versions = map<string, Version>

  /** The unique partial index: one active version per document. */
  ghost predicate OneActive(versions: Versions) {
    forall v, w | IsActive(versions, v) && IsActive(versions, w) && versions[v].document == versions[w].document ::
      v == w
  }

  predicate IsActive(versions: Versions, v: string) {
    v in versions && versions[v].status == Active
  }

  /** The active map: for every document, which version is active. */
  ghost predicate SameActive(a: Versions, b: Versions) {
    forall v :: IsActive(a, v) == IsActive(b, v)
  }

  function DocumentsOf(versions: Versions, ids: seq<string>): set<string> {
    set v | v in ids && v in versions :: versions[v].document
  }

  function Stored(versions: Versions, ids: seq<string>): set<string> {
    set v | v in ids && v in versions
  }

  /** Rows only changed their status, only in `docs`, and what was active can be activated again. */
  ghost predicate Reachable(start: Versions, now: Versions, docs: set<string>) {
    && now.Keys == start.Keys
    && OneActive(now)
    && (forall v | v in start :: now[v].(status := start[v].status) == start[v])
    && (forall v | v in start && start[v].document !in docs :: now[v] == start[v])
    && (forall v | v in start && now[v].status != start[v].status ::
          start[v].status in {Ready, Active, Retired} && now[v].status in {Active, Retired})
  }

  /** `DocumentIndexRepository.activate`: the version becomes the one active version of its document. */
  function Activated(versions: Versions, target: string): Versions
    requires target in versions
  {
    map v | v in versions ::
      if v == target then versions[v].(status := Active)
      else if versions[v].document == versions[target].document && versions[v].status == Active then
        versions[v].(status := Retired)
      else versions[v]
  }

  lemma ActivatedIsOne(now: Versions, target: string)
    requires OneActive(now) && target in now
    ensures OneActive(Activated(now, target))
  {
    var after := Activated(now, target);
    assert forall v | IsActive(after, v) ::
      v == target || (IsActive(now, v) && now[v].document != now[target].document);
  }

  lemma ActivatedIsReachable(start: Versions, now: Versions, docs: set<string>, target: string)
    requires Reachable(start, now, docs) && target in now && now[target].document in docs
    requires now[target].status in {Ready, Active, Retired}
    ensures Reachable(start, Activated(now, target), docs)
    ensures IsActive(Activated(now, target), target)
    ensures forall v | v in now && now[v].document != now[target].document :: Activated(now, target)[v] == now[v]
  {
    ActivatedIsOne(now, target);
    hide OneActive;
    var after := Activated(now, target);
    forall v | v in start
      ensures after[v].(status := start[v].status) == start[v] && (start[v].document !in docs ==> after[v] == start[v])
      ensures after[v].status != start[v].status ==>
        start[v].status in {Ready, Active, Retired} && after[v].status in {Active, Retired}
    {
      assert now[v].(status := start[v].status) == start[v];
    }
  }

  predicate CanActivate(versions: Versions, document: string, target: string) {
    target in versions && versions[target].document == document && versions[target].status in {Ready, Active, Retired}
  }

  /** The documents with an active version. */
  function ActiveDocuments(versions: Versions): set<string> {
    set v | v in versions && versions[v].status == Active :: versions[v].document
  }

  lemma ActivatedDocuments(versions: Versions, target: string)
    requires target in versions
    ensures ActiveDocuments(Activated(versions, target)) == ActiveDocuments(versions) + {versions[target].document}
  {
    var now := Activated(versions, target);
    forall d | d in ActiveDocuments(versions) ensures d in ActiveDocuments(now) {
      var v :| v in versions && versions[v].status == Active && versions[v].document == d;
      assert d != versions[target].document ==> now[v] == versions[v];
      assert now[target].status == Active;
    }
    forall d | d in ActiveDocuments(now) ensures d in ActiveDocuments(versions) + {versions[target].document} {
      var v :| v in now && now[v].status == Active && now[v].document == d;
    }
    assert now[target].status == Active && now[target].document == versions[target].document;
  }

  function RetireAll(versions: Versions, docs: set<string>): Versions {
    map v | v in versions ::
      if versions[v].document in docs && versions[v].status == Active then versions[v].(status := Retired)
      else versions[v]
  }

  /** Every document of the cohort has an active version, and it is one of the cohort's. */
  ghost predicate Serves(versions: Versions, ids: seq<string>) {
    forall v | v in Stored(versions, ids) ::
      exists w | w in ids :: IsActive(versions, w) && versions[w].document == versions[v].document
  }

  /** What a retrieval over the documents sees: their active versions. */
  function ActiveIn(versions: Versions, docs: set<string>): set<string> {
    set v | v in versions && versions[v].status == Active && versions[v].document in docs
  }

  /** `served` takes one version of the cohort for each of its documents. */
  ghost predicate Drawn(versions: Versions, ids: seq<string>, served: set<string>) {
    && (forall v | v in served :: v in Stored(versions, ids))
    && (forall v, w | v in served && w in served && versions[v].document == versions[w].document :: v == w)
    && (forall d | d in DocumentsOf(versions, ids) :: exists v | v in served :: versions[v].document == d)
  }

  lemma ServedIsDrawn(start: Versions, now: Versions, docs: set<string>, ids: seq<string>)
    requires Reachable(start, now, docs) && Serves(now, ids) && DocumentsOf(start, ids) == docs
    ensures Drawn(start, ids, ActiveIn(now, docs))
  {
    var served := ActiveIn(now, docs);
    assert forall v | v in served :: v in start && start[v].document == now[v].document && IsActive(now, v);
    forall v | v in served ensures v in Stored(start, ids) {
      var u :| u in ids && u in start && start[u].document == now[v].document;
      assert u in Stored(now, ids) && now[u].document == start[u].document;
      var w :| w in ids && IsActive(now, w) && now[w].document == now[u].document;
    }
    forall d | d in docs ensures exists v | v in served :: start[v].document == d {
      var u :| u in ids && u in start && start[u].document == d;
      assert u in Stored(now, ids) && now[u].document == start[u].document;
      var w :| w in ids && IsActive(now, w) && now[w].document == now[u].document;
      assert w in served;
    }
  }

  // ---------------------------------------------------------------- the report

  datatype Query = Query(id: string, text: string)

  /** Scores and trace of one query under one variant, whatever they hold. */
  datatype Entry = Entry(scores: string, trace: string)

  /** `per_query` and `traces`: query id to variant to entry. */
  type Report = map<string, map<string, Entry>>

  /** Retrieval and scoring of a query for a variant while these versions are active; None when it fails. */
  type Retrieve = (string, set<string>, Query) -> Option<Entry>

  function Row(report: Report, id: string): map<string, Entry> {
    if id in report then report[id] else map[]
  }

  function QueryIds(queries: seq<Query>): set<string> {
    set q | q in queries :: q.id
  }

  /** No later query has the same id, so its entry is not written over. */
  predicate IsLast(queries: seq<Query>, k: nat) {
    k < |queries| && forall j | k < j < |queries| :: queries[j].id != queries[k].id
  }

  /** From `before` to `report` the variant's entries of all queries were added, and nothing else. */
  ghost predicate Filled(before: Report, report: Report, variant: string, active: set<string>, queries: seq<Query>,
                         retrieve: Retrieve)
  {
    && report.Keys == before.Keys + QueryIds(queries)
    && (forall id | id !in QueryIds(queries) :: Row(report, id) == Row(before, id))
    && (forall k: nat | IsLast(queries, k) ::
          && retrieve(variant, active, queries[k]).Some?
          && Row(report, queries[k].id) ==
               Row(before, queries[k].id)[variant := retrieve(variant, active, queries[k]).value])
  }

  lemma FilledMore(before: Report, report: Report, variant: string, active: set<string>, queries: seq<Query>,
                   retrieve: Retrieve, q: Query)
    requires Filled(before, report, variant, active, queries, retrieve) && retrieve(variant, active, q).Some?
    ensures var report' := report[q.id := Row(report, q.id)[variant := retrieve(variant, active, q).value]];
      Filled(before, report', variant, active, queries + [q], retrieve)
  {
    var queries' := queries + [q];
    var report' := report[q.id := Row(report, q.id)[variant := retrieve(variant, active, q).value]];
    assert QueryIds(queries') == QueryIds(queries) + {q.id};
    var value := retrieve(variant, active, q).value;
    if q.id in QueryIds(queries) {
      var k := LastWith(queries, q.id);
      assert Row(report', q.id) == Row(before, q.id)[variant := value];
    }
    forall k: nat | IsLast(queries', k)
      ensures retrieve(variant, active, queries'[k]).Some?
      ensures Row(report', queries'[k].id) ==
        Row(before, queries'[k].id)[variant := retrieve(variant, active, queries'[k]).value]
    {
      if k < |queries| {
        assert queries'[|queries|].id != queries'[k].id;
        assert forall j | k < j < |queries| :: queries[j].id == queries'[j].id;
        assert IsLast(queries, k);
      }
    }
  }

  lemma {:induction false} LastWith(queries: seq<Query>, id: string) returns (k: nat)
    requires id in QueryIds(queries)
    ensures IsLast(queries, k) && queries[k].id == id
  {
    var last := |queries| - 1;
    if queries[last].id == id {
      k := last;
    } else {
      assert queries == queries[..last] + [queries[last]];
      k := LastWith(queries[..last], id);
    }
  }

  /** The report holds, for each query, the entry of A under `servedA` and that of Best under `servedBest`. */
  ghost predicate Compared(report: Report, best: string, servedA: set<string>, servedBest: set<string>,
                           queries: seq<Query>, retrieve: Retrieve)
  {
    && report.Keys == QueryIds(queries)
    && forall k: nat | IsLast(queries, k) ::
         && retrieve("A", servedA, queries[k]).Some? && retrieve(best, servedBest, queries[k]).Some?
         && queries[k].id in report
         && report[queries[k].id] == map["A" := retrieve("A", servedA, queries[k]).value,
                                         best := retrieve(best, servedBest, queries[k]).value]
  }

  lemma BothFilled(first: Report, report: Report, best: string, servedA: set<string>, servedBest: set<string>,
                   queries: seq<Query>, retrieve: Retrieve)
    requires best != "A" && Filled(map[], first, "A", servedA, queries, retrieve)
    requires Filled(first, report, best, servedBest, queries, retrieve)
    ensures Compared(report, best, servedA, servedBest, queries, retrieve)
  {
  }

  // ---------------------------------------------------------------- the run

  /** Nothing raises. */
  ghost predicate Smooth(faults: Faults, retrieve: Retrieve) {
    && (forall variant, n :: !faults(variant, n))
    && (forall variant, active, q :: retrieve(variant, active, q).Some?)
  }

  const TOP_N := 20

  /** The checks on the arguments. */
  predicate ArgumentsOk(indexes: map<string, seq<string>>, baseline: string, best: string, queries: seq<Query>,
                        topN: int)
  {
    && baseline == "A" && best in {"B", "C", "D", "E"} && topN == TOP_N
    && baseline in indexes && best in indexes && queries != []
  }

  /** The two cohorts can be compared: complete, over the same documents, all or none of which are active. */
  ghost predicate Comparable(versions: Versions, a: seq<string>, best: seq<string>) {
    && CohortOk(versions, a) && CohortOk(versions, best) && DocumentsOf(versions, a) == DocumentsOf(versions, best)
    && ((forall v | IsActive(versions, v) :: versions[v].document !in DocumentsOf(versions, a))
        || DocumentsOf(versions, a) <= ActiveDocuments(versions))
  }

  /** Version `i` of a cohort is stored, finished, and of a status that can be activated. */
  predicate Usable(versions: Versions, ids: seq<string>, i: nat)
    requires i < |ids|
  {
    ids[i] in versions && versions[ids[i]].completed
    && (versions[ids[i]].status == Ready || versions[ids[i]].status == Active || versions[ids[i]].status == Retired)
  }

  predicate AllUsable(versions: Versions, ids: seq<string>) {
    (forall i | 0 <= i < |ids| :: Usable(versions, ids, i)) && forall i, j | 0 <= i < j < |ids| :: ids[i] != ids[j]
  }

  /** Each document of the first cohort has a version in the second. */
  predicate Covers(versions: Versions, a: seq<string>, b: seq<string>) {
    forall v | v in a && v in versions ::
      exists w | w in b :: w in versions && versions[w].document == versions[v].document
  }

  /** What two cohorts must be like: usable, over the same documents, of which all or none are active. */
  ghost predicate Fit(versions: Versions, a: seq<string>, b: seq<string>) {
    && AllUsable(versions, a) && AllUsable(versions, b) && Covers(versions, a, b) && Covers(versions, b, a)
    && (|| (forall v, w | v in a && v in versions && IsActive(versions, w) ::
              versions[w].document != versions[v].document)
        || (forall v | v in a && v in versions ::
              exists w | IsActive(versions, w) :: versions[w].document == versions[v].document))
  }

  lemma {:induction false} StoredCount(versions: Versions, ids: seq<string>)
    ensures |Stored(versions, ids)| <= |ids|
    ensures |Stored(versions, ids)| == |ids| <==>
      (forall i | 0 <= i < |ids| :: ids[i] in versions) && forall i, j | 0 <= i < j < |ids| :: ids[i] != ids[j]
  {
    if ids != [] {
      var last := |ids| - 1;
      var front := ids[..last];
      StoredCount(versions, front);
      assert ids == front + [ids[last]];
      if ids[last] in versions {
        assert Stored(versions, ids) == Stored(versions, front) + {ids[last]};
      } else {
        assert Stored(versions, ids) == Stored(versions, front);
      }
      if ids[last] in Stored(versions, front) {
        var i :| 0 <= i < last && front[i] == ids[last];
        assert ids[i] == ids[last];
      }
    }
  }

  lemma CohortExactly(versions: Versions, ids: seq<string>)
    ensures CohortOk(versions, ids) <==> AllUsable(versions, ids)
  {
    StoredCount(versions, ids);
    forall i | 0 <= i < |ids| ensures AllUsable(versions, ids) ==> ids[i] in versions {
      assert AllUsable(versions, ids) ==> Usable(versions, ids, i);
    }
    if AllUsable(versions, ids) {
      forall v | v in ids && v in versions
        ensures versions[v].status in {Ready, Active, Retired} && versions[v].completed
      {
        var i :| 0 <= i < |ids| && ids[i] == v;
        assert Usable(versions, ids, i);
      }
    }
    if CohortOk(versions, ids) {
      forall i | 0 <= i < |ids| ensures Usable(versions, ids, i) {
        assert ids[i] in ids;
      }
    }
  }

  lemma CoversExactly(versions: Versions, a: seq<string>, b: seq<string>)
    ensures Covers(versions, a, b) <==> DocumentsOf(versions, a) <= DocumentsOf(versions, b)
  {
    if DocumentsOf(versions, a) <= DocumentsOf(versions, b) {
      forall v | v in a && v in versions
        ensures exists w | w in b :: w in versions && versions[w].document == versions[v].document
      {
        assert versions[v].document in DocumentsOf(versions, b);
      }
    }
  }

  lemma ComparableExactly(versions: Versions, a: seq<string>, b: seq<string>)
    ensures Comparable(versions, a, b) <==> Fit(versions, a, b)
  {
    CohortExactly(versions, a);
    CohortExactly(versions, b);
    CoversExactly(versions, a, b);
    CoversExactly(versions, b, a);
    NoneActive(versions, a);
    AllActive(versions, a);
    hide CohortOk, AllUsable, Covers, ActiveDocuments, DocumentsOf;
  }

  lemma NoneActive(versions: Versions, a: seq<string>)
    ensures (forall v | IsActive(versions, v) :: versions[v].document !in DocumentsOf(versions, a)) <==>
      forall v, w | v in a && v in versions && IsActive(versions, w) :: versions[w].document != versions[v].document
  {
    assert forall v | v in a && v in versions :: versions[v].document in DocumentsOf(versions, a);
  }

  lemma AllActive(versions: Versions, a: seq<string>)
    ensures DocumentsOf(versions, a) <= ActiveDocuments(versions) <==>
      forall v | v in a && v in versions ::
        exists w | IsActive(versions, w) :: versions[w].document == versions[v].document
  {
    assert forall v | v in a && v in versions :: versions[v].document in DocumentsOf(versions, a);
    forall v | v in a && v in versions
      ensures versions[v].document in ActiveDocuments(versions) <==>
        exists w | IsActive(versions, w) :: versions[w].document == versions[v].document
    {
      ActiveSomewhere(versions, versions[v].document);
    }
    hide ActiveDocuments, IsActive;
  }

  lemma ActiveSomewhere(versions: Versions, d: string)
    ensures d in ActiveDocuments(versions) <==> exists w | IsActive(versions, w) :: versions[w].document == d
  {
    if d in ActiveDocuments(versions) {
      var v :| v in versions && versions[v].status == Active && versions[v].document == d;
      assert IsActive(versions, v);
    }
  }

  /** Where an activation may raise: before writing version `n` of a variant's cohort. */
  type Faults = (string, nat) -> bool

  datatype Outcome = Rejected | Completed | Raised

  /** A session over the version table: `versions` is what it sees, `committed` what survives it.
      `curated` are the documents that exist and belong to nobody. */
  class EvaluationSession {
    var versions: Versions
    var committed: Versions
    const curated: set<string>

    constructor (versions: Versions, curated: set<string>)
      ensures this.versions == versions && committed == versions && this.curated == curated
    {
      this.versions, committed, this.curated := versions, versions, curated;
    }

    /** `activate_index`, which raises before it writes anything. */
    method Activate(document: string, target: string) returns (ok: bool)
      modifies this`versions
      requires OneActive(versions)
      ensures ok <==> document in curated && CanActivate(old(versions), document, target)
      ensures versions == if ok then Activated(old(versions), target) else old(versions)
      ensures ok <==>
        && document in curated && target in old(versions) && old(versions)[target].document == document
        && old(versions)[target].status in {Ready, Active, Retired}
      ensures ok ==> versions.Keys == old(versions).Keys && forall v | v in versions ::
        versions[v] == old(versions)[v].(status :=
          if v == target then Active
          else if old(versions)[v].document == document && old(versions)[v].status == Active then Retired
          else old(versions)[v].status)
    {
      if document !in curated {
        return false;
      }
      if target !in versions || versions[target].document != document {
        return false;
      }
      if versions[target].status == Active {
        return true;
      }
      if versions[target].status !in {Ready, Retired} {
        return false;
      }
      versions := map v | v in versions ::
        if v != target && versions[v].document == document && versions[v].status == Active
        then versions[v].(status := Retired) else versions[v];
      versions := versions[target := versions[target].(status := Active)];
      return true;
    }

    /** `_active_versions_for_cohorts`: the active map of the documents, all of it or nothing. */
    method OriginalActive(docs: set<string>) returns (ok: bool, original: map<string, string>)
      requires OneActive(versions)
      ensures ok <==> original.Keys == {} || original.Keys == docs
      ensures forall d | d in original ::
        d in docs && IsActive(versions, original[d]) && versions[original[d]].document == d
      ensures forall v | IsActive(versions, v) && versions[v].document in docs ::
        versions[v].document in original && original[versions[v].document] == v
    {
      var active := set v | v in versions && versions[v].status == Active && versions[v].document in docs;
      original := map[];
      var left := active;
      while left != {}
        invariant left <= active
        invariant forall d | d in original ::
          d in docs && IsActive(versions, original[d]) && versions[original[d]].document == d
        invariant forall v | v in active - left ::
          versions[v].document in original && original[versions[v].document] == v
        decreases left
      {
        var v :| v in left;
        left := left - {v};
        original := original[versions[v].document := v];
      }
      ok := original.Keys == {} || original.Keys == docs;
    }

    /** `_activate_cohort`: activate the stored versions of the cohort in any order, then commit. */
    method ActivateCohort(variant: string, ids: seq<string>, faults: Faults, ghost start: Versions,
                          ghost docs: set<string>)
      returns (ok: bool)
      requires Reachable(start, versions, docs) && CohortOk(start, ids) && DocumentsOf(start, ids) == docs
      modifies this
      ensures Reachable(start, versions, docs) && ActiveDocuments(old(versions)) <= ActiveDocuments(versions)
      ensures ok ==> committed == versions && docs <= curated && Serves(versions, ids)
      ensures !ok ==> committed == old(committed)
      ensures (forall v, n :: !faults(v, n)) && docs <= curated ==> ok
    {
      hide Reachable, CohortOk, Activated, ActiveDocuments, OneActive, Stored, DocumentsOf, Serves, ServedSoFar;
      ServedNone(start, versions, ids);
      CohortStored(start, versions, docs, ids);
      var left, position := Stored(versions, ids), 0;
      assert Stored(start, ids) - left == {};
      while left != {}
        invariant left <= Stored(start, ids) && committed == old(committed)
        invariant Reachable(start, versions, docs) && ActiveDocuments(old(versions)) <= ActiveDocuments(versions)
        invariant forall v | v in Stored(start, ids) - left :: v in start && start[v].document in curated
        invariant ServedSoFar(start, versions, ids, Stored(start, ids) - left)
        decreases left
      {
        var v :| v in left;
        assert Stored(start, ids) - (left - {v}) == Stored(start, ids) - left + {v};
        ServesOneMore(start, versions, docs, ids, Stored(start, ids) - left, v);
        left := left - {v};
        CohortMember(start, versions, docs, ids, v);
        if faults(variant, position) {
          return false;
        }
        ActivatedIsReachable(start, versions, docs, v);
        ActivatedDocuments(versions, v);
        ok := Activate(versions[v].document, v);
        if !ok {
          return;
        }
        position := position + 1;
      }
      assert Stored(start, ids) - left == Stored(start, ids);
      CohortCovered(start, docs, ids, curated);
      ServedAll(start, versions, docs, ids);
      committed := versions;
      ok := true;
    }

    /** The body of the `try`: both variants in sequence, each followed by its queries. */
    method Evaluate(a: seq<string>, best: string, bestIds: seq<string>, queries: seq<Query>, retrieve: Retrieve,
                    faults: Faults, docs: set<string>, ghost start: Versions)
      returns (ok: bool, report: Report, ghost servedA: set<string>, ghost servedBest: set<string>)
      requires versions == committed == start && OneActive(start) && best != "A"
      requires CohortOk(start, a) && CohortOk(start, bestIds)
      requires DocumentsOf(start, a) == DocumentsOf(start, bestIds) == docs
      modifies this
      ensures Reachable(start, versions, docs) && Reachable(start, committed, docs)
      ensures ActiveDocuments(committed) <= ActiveDocuments(versions)
      ensures committed == start || docs <= curated
      ensures ok ==> Drawn(start, a, servedA) && Drawn(start, bestIds, servedBest)
      ensures ok ==> Compared(report, best, servedA, servedBest, queries, retrieve)
      ensures Smooth(faults, retrieve) && docs <= curated ==> ok
    {
      hide Serves, Reachable, Filled, Compared, Drawn, ActiveDocuments, CohortOk, DocumentsOf, OneActive;
      StartIsReachable(start, docs);
      report, servedA, servedBest := map[], {}, {};
      ok := ActivateCohort("A", a, faults, start, docs);
      if !ok {
        return;
      }
      ServedIsDrawn(start, versions, docs, a);
      servedA := ActiveIn(versions, docs);
      ok, report := RunQueries("A", docs, queries, retrieve, map[]);
      if !ok {
        return;
      }
      ghost var first := report;
      ok := ActivateCohort(best, bestIds, faults, start, docs);
      if !ok {
        return;
      }
      ServedIsDrawn(start, versions, docs, bestIds);
      servedBest := ActiveIn(versions, docs);
      ok, report := RunQueries(best, docs, queries, retrieve, report);
      if ok {
        BothFilled(first, report, best, servedA, servedBest, queries, retrieve);
      }
    }

    /** The queries of one variant: each sees the versions of the documents that are active now. */
    method RunQueries(variant: string, docs: set<string>, queries: seq<Query>, retrieve: Retrieve, before: Report)
      returns (ok: bool, report: Report)
      ensures ok <==> forall k | 0 <= k < |queries| :: retrieve(variant, ActiveIn(versions, docs), queries[k]).Some?
      ensures ok ==> Filled(before, report, variant, ActiveIn(versions, docs), queries, retrieve)
    {
      var active := ActiveIn(versions, docs);
      report := before;
      NothingFilled(before, variant, active, retrieve);
      hide Filled, ActiveIn, Row;
      assert queries[..0] == [];
      for i := 0 to |queries|
        invariant forall k | 0 <= k < i :: retrieve(variant, active, queries[k]).Some?
        invariant Filled(before, report, variant, active, queries[..i], retrieve)
      {
        var entry := retrieve(variant, active, queries[i]);
        if entry.None? {
          return false, report;
        }
        FilledMore(before, report, variant, active, queries[..i], retrieve, queries[i]);
        assert queries[..i + 1] == queries[..i] + [queries[i]];
        report := report[queries[i].id := Row(report, queries[i].id)[variant := entry.value]];
      }
      assert queries[..|queries|] == queries;
      ok := true;
    }

    /** `_restore_active_versions` when nothing was active: retire whatever is active now. */
    method RestoreNothing(ghost start: Versions, docs: set<string>)
      requires Reachable(start, versions, docs) && Reachable(start, committed, docs)
      requires ActiveDocuments(committed) <= ActiveDocuments(versions)
      requires forall v | IsActive(start, v) :: start[v].document !in docs
      modifies this
      ensures SameActive(versions, start) && SameActive(committed, start)
    {
      var documents := set v | v in versions && versions[v].document in docs && versions[v].status == Active ::
        versions[v].document;
      assert forall v | IsActive(versions, v) :: versions[v].document in docs ==> versions[v].document in documents;
      if documents != {} {
        versions := RetireAll(versions, docs);
        committed := versions;
      } else {
        NothingActive(start, versions, committed, docs);
      }
    }

    /** `_restore_active_versions` when every document had an active version. */
    method RestoreAll(original: map<string, string>, ghost start: Versions, ghost docs: set<string>) returns (ok: bool)
      requires Reachable(start, versions, docs) && Reachable(start, committed, docs)
      requires OneActive(start) && original.Keys == docs
      requires forall d | d in original :: IsActive(start, original[d]) && start[original[d]].document == d
      requires committed == start || docs <= curated
      modifies this
      ensures SameActive(versions, start) && SameActive(committed, start)
      ensures docs <= curated ==> ok
    {
      var left := original.Keys;
      while left != {}
        invariant left <= docs && Reachable(start, versions, docs) && committed == old(committed)
        invariant forall d | d in docs - left :: IsActive(versions, original[d])
        decreases left
      {
        var d :| d in left;
        left := left - {d};
        var target := original[d];
        ActivatedIsReachable(start, versions, docs, target);
        OthersStayActive(start, versions, docs, original, left, d);
        hide Reachable, Activated, OneActive;
        ok := Activate(d, target);
        if !ok {
          versions := committed;
          return;
        }
      }
      RestoredIsOriginal(start, versions, docs, original);
      committed := versions;
      ok := true;
    }

    /** `run_production_a_vs_best`: whatever happens, the active map afterwards is the one before,
        for every document, in the session and in the database; and a report compares the queries
        under versions of the one cohort with the queries under versions of the other. */
    method Run(indexes: map<string, seq<string>>, baseline: string, best: string, queries: seq<Query>, topN: int,
               retrieve: Retrieve, faults: Faults)
      returns (outcome: Outcome, report: Report, ghost servedA: set<string>, ghost servedBest: set<string>)
      requires OneActive(versions) && committed == versions
      modifies this
      ensures SameActive(versions, old(versions)) && SameActive(committed, old(versions))
      ensures outcome == Rejected <==>
        !(&& baseline == "A" && best in {"B", "C", "D", "E"} && topN == 20 && queries != []
          && "A" in indexes && best in indexes && Fit(old(versions), indexes["A"], indexes[best]))
      ensures outcome == Rejected ==> versions == committed == old(versions)
      ensures outcome != Rejected && Smooth(faults, retrieve) && DocumentsOf(old(versions), indexes["A"]) <= curated ==>
        outcome == Completed
      ensures outcome == Completed ==>
        && Drawn(old(versions), indexes["A"], servedA) && Drawn(old(versions), indexes[best], servedBest)
        && Compared(report, best, servedA, servedBest, queries, retrieve)
    {
      hide CohortOk, DocumentsOf, ActiveDocuments, Fit, OneActive, Smooth, Drawn, Compared, SameActive, IsActive;
      report, servedA, servedBest := map[], {}, {};
      ghost var start := versions;
      SameAsItself(start);
      if !ArgumentsOk(indexes, baseline, best, queries, topN) {
        return Rejected, report, servedA, servedBest;
      }
      var a, bestIds := indexes[baseline], indexes[best];
      ComparableExactly(start, a, bestIds);
      if !CohortOk(versions, a) || !CohortOk(versions, bestIds)
         || DocumentsOf(versions, a) != DocumentsOf(versions, bestIds) {
        return Rejected, report, servedA, servedBest;
      }
      var docs := DocumentsOf(versions, a);
      var ok, original := OriginalActive(docs);
      OriginalIsTotal(versions, docs, original);
      if !ok {
        return Rejected, report, servedA, servedBest;
      }
      outcome, report, servedA, servedBest := Protected(a, best, bestIds, queries, retrieve, faults, docs, original);
    }

    /** The `try` and its `finally`. */
    method Protected(a: seq<string>, best: string, bestIds: seq<string>, queries: seq<Query>, retrieve: Retrieve,
                     faults: Faults, docs: set<string>, original: map<string, string>)
      returns (outcome: Outcome, report: Report, ghost servedA: set<string>, ghost servedBest: set<string>)
      requires OneActive(versions) && committed == versions && best != "A"
      requires CohortOk(versions, a) && CohortOk(versions, bestIds)
      requires DocumentsOf(versions, a) == DocumentsOf(versions, bestIds) == docs
      requires original.Keys == {} || original.Keys == docs
      requires forall d | d in original :: IsActive(versions, original[d]) && versions[original[d]].document == d
      requires original == map[] ==> forall v | IsActive(versions, v) :: versions[v].document !in docs
      modifies this
      ensures SameActive(versions, old(versions)) && SameActive(committed, old(versions))
      ensures outcome != Rejected && (Smooth(faults, retrieve) && docs <= curated ==> outcome == Completed)
      ensures outcome == Completed ==>
        && Drawn(old(versions), a, servedA) && Drawn(old(versions), bestIds, servedBest)
        && Compared(report, best, servedA, servedBest, queries, retrieve)
    {
      ghost var start := versions;
      hide CohortOk, DocumentsOf, Reachable, ActiveDocuments, OneActive, Smooth, Drawn, Compared;
      var done;
      done, report, servedA, servedBest := Evaluate(a, best, bestIds, queries, retrieve, faults, docs, start);
      if original == map[] {
        RestoreNothing(start, docs);
      } else {
        var ok := RestoreAll(original, start, docs);
        if !ok {
          return Raised, report, servedA, servedBest;
        }
      }
      outcome := if done then Completed else Raised;
    }
  }

  lemma SameAsItself(versions: Versions)
    ensures SameActive(versions, versions)
  {
  }

  lemma StartIsReachable(start: Versions, docs: set<string>)
    requires OneActive(start)
    ensures Reachable(start, start, docs)
  {
  }

  lemma NothingFilled(before: Report, variant: string, active: set<string>, retrieve: Retrieve)
    ensures Filled(before, before, variant, active, [], retrieve)
  {
  }

  /** The versions in `done` have an active version of the cohort beside them. */
  ghost predicate ServedSoFar(start: Versions, now: Versions, ids: seq<string>, done: set<string>) {
    forall v | v in done && v in start ::
      exists w | w in ids :: IsActive(now, w) && w in start && start[w].document == start[v].document
  }

  lemma ServedNone(start: Versions, now: Versions, ids: seq<string>)
    ensures ServedSoFar(start, now, ids, {})
  {
  }

  lemma ServesOneMore(start: Versions, now: Versions, docs: set<string>, ids: seq<string>, done: set<string>, v: string)
    requires Reachable(start, now, docs) && ServedSoFar(start, now, ids, done) && v in Stored(start, ids)
    ensures v in now && ServedSoFar(start, Activated(now, v), ids, done + {v})
  {
    var after := Activated(now, v);
    forall u | u in done + {v} && u in start
      ensures exists w | w in ids :: IsActive(after, w) && w in start && start[w].document == start[u].document
    {
      if start[u].document == start[v].document {
        assert IsActive(after, v);
      } else {
        var w :| w in ids && IsActive(now, w) && w in start && start[w].document == start[u].document;
        assert IsActive(after, w);
      }
    }
  }

  lemma ServedAll(start: Versions, now: Versions, docs: set<string>, ids: seq<string>)
    requires Reachable(start, now, docs) && ServedSoFar(start, now, ids, Stored(start, ids))
    ensures Serves(now, ids)
  {
    forall v | v in Stored(now, ids)
      ensures exists w | w in ids :: IsActive(now, w) && now[w].document == now[v].document
    {
      var w :| w in ids && IsActive(now, w) && w in start && start[w].document == start[v].document;
    }
  }

  /** The recorded map is empty or total exactly when the documents are all inactive or all active. */
  lemma OriginalIsTotal(versions: Versions, docs: set<string>, original: map<string, string>)
    requires forall d | d in original ::
      d in docs && IsActive(versions, original[d]) && versions[original[d]].document == d
    requires forall v | IsActive(versions, v) && versions[v].document in docs ::
      versions[v].document in original && original[versions[v].document] == v
    ensures original.Keys == {} || original.Keys == docs <==>
      (forall v | IsActive(versions, v) :: versions[v].document !in docs) || docs <= ActiveDocuments(versions)
  {
    if docs <= ActiveDocuments(versions) {
      forall d | d in docs ensures d in original {
        var v :| v in versions && versions[v].status == Active && versions[v].document == d;
        assert IsActive(versions, v);
      }
    }
    if original.Keys == docs {
      forall d | d in docs ensures d in ActiveDocuments(versions) {
        assert IsActive(versions, original[d]);
      }
    }
    if original.Keys != {} {
      var d :| d in original;
      assert IsActive(versions, original[d]);
    }
  }

  lemma CohortStored(start: Versions, now: Versions, docs: set<string>, ids: seq<string>)
    requires Reachable(start, now, docs)
    ensures Stored(now, ids) == Stored(start, ids)
  {
  }

  lemma CohortCovered(start: Versions, docs: set<string>, ids: seq<string>, curated: set<string>)
    requires DocumentsOf(start, ids) == docs
    requires forall v | v in Stored(start, ids) :: v in start && start[v].document in curated
    ensures docs <= curated
  {
    forall d | d in docs ensures d in curated {
      var v :| v in ids && v in start && start[v].document == d;
      assert v in Stored(start, ids);
    }
  }

  lemma CohortMember(start: Versions, now: Versions, docs: set<string>, ids: seq<string>, v: string)
    requires Reachable(start, now, docs) && CohortOk(start, ids) && DocumentsOf(start, ids) == docs
      && v in Stored(start, ids)
    ensures v in start && v in now && now[v].document == start[v].document && now[v].document in docs
    ensures CanActivate(now, now[v].document, v) && OneActive(now)
  {
  }

  lemma NothingActive(start: Versions, now: Versions, committed: Versions, docs: set<string>)
    requires Reachable(start, now, docs) && Reachable(start, committed, docs)
    requires ActiveDocuments(committed) <= ActiveDocuments(now)
    requires forall v | IsActive(start, v) :: start[v].document !in docs
    requires forall v | IsActive(now, v) :: now[v].document !in docs
    ensures SameActive(now, start) && SameActive(committed, start)
  {
    forall v | IsActive(committed, v) ensures committed[v].document !in docs {
      assert committed[v].document in ActiveDocuments(committed);
      var w :| w in now && now[w].status == Active && now[w].document == committed[v].document;
      assert IsActive(now, w);
    }
  }

  lemma OthersStayActive(start: Versions, now: Versions, docs: set<string>, original: map<string, string>,
                         left: set<string>, d: string)
    requires Reachable(start, now, docs) && original.Keys == docs && d in docs && left <= docs
    requires forall e | e in original :: IsActive(start, original[e]) && start[original[e]].document == e
    requires forall e | e in docs - left - {d} :: IsActive(now, original[e])
    ensures original[d] in now && forall e | e in docs - left :: IsActive(Activated(now, original[d]), original[e])
  {
  }

  lemma RestoredIsOriginal(start: Versions, now: Versions, docs: set<string>, original: map<string, string>)
    requires Reachable(start, now, docs) && OneActive(start) && original.Keys == docs
    requires forall d | d in original :: IsActive(start, original[d]) && start[original[d]].document == d
    requires forall d | d in docs :: IsActive(now, original[d])
    ensures SameActive(now, start)
  {
    forall v ensures IsActive(now, v) == IsActive(start, v) {
      if v in start && start[v].document in docs {
        assert IsActive(now, original[start[v].document]);
      }
    }
  }

  predicate CohortOk(versions: Versions, ids: seq<string>) {
    && |Stored(versions, ids)| == |ids|
    && forall v | v in ids && v in versions :: versions[v].status in {Ready, Active, Retired} && versions[v].completed
  }
}
