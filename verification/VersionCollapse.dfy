/** The downgrade of migration 0017: one index version per document survives, chosen by a fold
    over the rows, and the chunks of all other versions are deleted. */
module VersionCollapse {
  import opened Prelude

  /** A version row that owns chunks. `time` is the sortable form of completed_at, updated_at or
      created_at, whichever is set first. */
  datatype Row = Row(id: string, document: string, status: string, time: int)
  datatype Chunk = Chunk(document: string, version: string)

  function Priority(status: string): nat {
    if status == "active" then 0
    else if status == "ready" then 1
    else if status == "retired" then 2
    else if status == "building" then 3
    else if status == "failed" then 4
    else 99
  }

  /** `row` replaces `current`: better status, or the same status and a later (time, id). */
  predicate Beats(row: Row, current: Row) {
    || Priority(row.status) < Priority(current.status)
    || (Priority(row.status) == Priority(current.status)
        && (row.time > current.time || (row.time == current.time && Less(current.id, row.id))))
  }

  /** Of two rows with different ids exactly one beats the other. */
  lemma BeatsIsTotal(a: Row, b: Row)
    ensures a.id != b.id ==> (Beats(a, b) <==> !Beats(b, a))
    ensures !Beats(a, a)
  {
    LessIsTotal(a.id, b.id);
    LessIsTotal(a.id, a.id);
  }

  lemma BeatsIsTransitive(a: Row, b: Row, c: Row)
    requires Beats(a, b) && Beats(b, c)
    ensures Beats(a, c)
  {
    if Less(b.id, a.id) && Less(c.id, b.id) {
      LessIsTransitive(c.id, b.id, a.id);
    }
  }

  /** `best` is a row of the document and beats every other row of it. */
  ghost predicate Best(rows: set<Row>, document: string, best: Row) {
    best in rows && best.document == document &&
    forall r | r in rows && r.document == document && r != best :: Beats(best, r)
  }

  function AsSet(rows: seq<Row>): set<Row> {
    set r | r in rows
  }

  ghost predicate UniqueIds(rows: set<Row>) {
    forall a, b | a in rows && b in rows && a.id == b.id :: a == b
  }

  /** There is only one best row, whatever order the rows are visited in. */
  lemma BestIsUnique(rows: set<Row>, document: string, a: Row, b: Row)
    requires UniqueIds(rows) && Best(rows, document, a) && Best(rows, document, b)
    ensures a == b
  {
    if a != b {
      BeatsIsTotal(a, b);
    }
  }

  /** What the best row is: active if any row of the document is, else ready, retired, building or
      failed, in this order; among rows of one status the latest, and of these the one with the greatest id. */
  ghost predicate Preferred(rows: set<Row>, document: string, best: Row) {
    && best in rows && best.document == document
    && forall r | r in rows && r.document == document ::
         && (r.status == "active" ==> best.status == "active")
         && (r.status == "ready" ==> best.status in {"active", "ready"})
         && (r.status == "retired" ==> best.status in {"active", "ready", "retired"})
         && (r.status == "building" ==> best.status in {"active", "ready", "retired", "building"})
         && (r.status == "failed" ==> best.status in {"active", "ready", "retired", "building", "failed"})
         && (r.status == best.status || (r.status !in KNOWN && best.status !in KNOWN) ==>
               r.time < best.time || (r.time == best.time && (r.id == best.id || Less(r.id, best.id))))
  }

  const KNOWN := {"active", "ready", "retired", "building", "failed"}

  lemma BestIsPreferred(rows: set<Row>, document: string, best: Row)
    requires UniqueIds(rows)
    ensures Best(rows, document, best) <==> Preferred(rows, document, best)
  {
    if Best(rows, document, best) {
      forall r | r in rows && r.document == document ensures r == best || Beats(best, r) {
      }
    }
    if Preferred(rows, document, best) {
      forall r | r in rows && r.document == document && r != best ensures Beats(best, r) {
      }
    }
  }

  /** What the loop keeps: for every document seen so far, its best row among the rows seen. */
  ghost predicate SelectedOk(seen: set<Row>, selected: map<string, Row>) {
    && (forall d :: d in selected <==> exists r | r in seen :: r.document == d)
    && (forall d | d in selected :: Best(seen, d, selected[d]))
  }

  lemma KeepCurrent(seen: set<Row>, current: Row, row: Row)
    requires Best(seen, row.document, current) && current.id != row.id && !Beats(row, current)
    ensures Best(seen + {row}, row.document, current)
  {
    BeatsIsTotal(row, current);
  }

  lemma TakeRow(seen: set<Row>, current: Row, row: Row)
    requires Best(seen, row.document, current) && Beats(row, current)
    ensures Best(seen + {row}, row.document, row)
  {
    forall r | r in seen && r.document == row.document && r != row ensures Beats(row, r) {
      if r != current {
        BeatsIsTransitive(row, current, r);
      }
    }
  }

  /** What one turn of the loop leaves for the row's own document. */
  function Pick(selected: map<string, Row>, row: Row): map<string, Row> {
    if row.document in selected && !Beats(row, selected[row.document]) then selected
    else selected[row.document := row]
  }

  lemma PickIsBest(seen: set<Row>, selected: map<string, Row>, row: Row, d: string)
    requires SelectedOk(seen, selected) && (forall r | r in seen :: r.id != row.id) && d in Pick(selected, row)
    ensures Best(seen + {row}, d, Pick(selected, row)[d])
  {
    hide Beats;
    if d == row.document && d in selected {
      if Beats(row, selected[d]) {
        TakeRow(seen, selected[d], row);
      } else {
        KeepCurrent(seen, selected[d], row);
      }
    }
  }

  lemma PickIsOk(seen: set<Row>, selected: map<string, Row>, row: Row)
    requires SelectedOk(seen, selected) && forall r | r in seen :: r.id != row.id
    ensures SelectedOk(seen + {row}, Pick(selected, row))
  {
    hide Beats, Best;
    forall d | d in Pick(selected, row) ensures Best(seen + {row}, d, Pick(selected, row)[d]) {
      PickIsBest(seen, selected, row, d);
    }
    forall d ensures d in Pick(selected, row) <==> exists r | r in seen + {row} :: r.document == d {
      if d in selected {
        var r :| r in seen && r.document == d;
        assert r in seen + {row};
      }
      assert row in seen + {row};
    }
  }

  /** The selection loop of `_collapse_versions_for_downgrade`, for any order of the rows. */
  method SelectBest(rows: seq<Row>) returns (selected: map<string, Row>)
    requires forall i, j | 0 <= i < j < |rows| :: rows[i].id != rows[j].id
    ensures SelectedOk(AsSet(rows), selected)
  {
    selected := map[];
    assert SelectedOk({}, selected);
    hide SelectedOk, Beats;
    assert AsSet(rows[..0]) == {};
    for i := 0 to |rows|
      invariant SelectedOk(AsSet(rows[..i]), selected)
    {
      var row := rows[i];
      assert rows[..i + 1] == rows[..i] + [row];
      assert AsSet(rows[..i + 1]) == AsSet(rows[..i]) + {row};
      PickIsOk(AsSet(rows[..i]), selected, row);
      if row.document !in selected {
        selected := selected[row.document := row];
      } else {
        var current := selected[row.document];
        if Beats(row, current) {
          selected := selected[row.document := row];
        }
      }
    }
    assert rows[..|rows|] == rows;
  }

  /** The rows with at least one chunk, as the join returns them. */
  ghost predicate Owners(versions: map<string, Row>, chunks: map<string, Chunk>, rows: seq<Row>) {
    && (forall i, j | 0 <= i < j < |rows| :: rows[i].id != rows[j].id)
    && (forall r | r in rows :: r.id in versions && versions[r.id] == r)
    && (forall v | v in versions ::
         versions[v].id == v && (versions[v] in rows <==> exists c | c in chunks :: chunks[c].version == v))
    && (forall c | c in chunks ::
         chunks[c].version in versions && versions[chunks[c].version].document == chunks[c].document)
  }

  /** DELETE ... WHERE document_id = :document_id AND index_version_id != :selected_id, per selected document. */
  method DeleteOthers(chunks: map<string, Chunk>, selected: map<string, Row>) returns (kept: map<string, Chunk>)
    ensures kept.Keys <= chunks.Keys && forall c | c in kept :: kept[c] == chunks[c]
    ensures forall c | c in chunks :: c in kept <==>
      chunks[c].document in selected ==> chunks[c].version == selected[chunks[c].document].id
  {
    kept := chunks;
    var left := selected.Keys;
    while left != {}
      invariant left <= selected.Keys && kept.Keys <= chunks.Keys && forall c | c in kept :: kept[c] == chunks[c]
      invariant forall c | c in chunks :: c in kept <==>
        chunks[c].document in selected.Keys - left ==> chunks[c].version == selected[chunks[c].document].id
      decreases left
    {
      var document :| document in left;
      left := left - {document};
      var selectedId := selected[document].id;
      kept := map c | c in kept && !(kept[c].document == document && kept[c].version != selectedId) :: kept[c];
    }
  }

  /** The whole collapse: each document that had chunks keeps exactly the chunks of its best version. */
  method Collapse(versions: map<string, Row>, chunks: map<string, Chunk>, rows: seq<Row>)
    returns (kept: map<string, Chunk>)
    requires Owners(versions, chunks, rows)
    ensures kept.Keys <= chunks.Keys && forall c | c in kept :: kept[c] == chunks[c]
    ensures forall c | c in chunks ::
      c in kept <==> Preferred(AsSet(rows), chunks[c].document, versions[chunks[c].version])
    ensures forall c | c in chunks :: KeepsSome(kept, chunks[c].document)
  {
    var selected := SelectBest(rows);
    kept := DeleteOthers(chunks, selected);
    assert UniqueIds(AsSet(rows));
    hide Best, SelectedOk, Beats, AsSet, UniqueIds, Preferred;
    forall c | c in chunks
      ensures c in kept <==> Preferred(AsSet(rows), chunks[c].document, versions[chunks[c].version])
      ensures KeepsSome(kept, chunks[c].document)
    {
      BestIsPreferred(AsSet(rows), chunks[c].document, versions[chunks[c].version]);
      KeptIsBest(versions, chunks, rows, selected, c);
      var k :| k in chunks && chunks[k].version == selected[chunks[c].document].id
        && chunks[k].document == chunks[c].document;
      assert k in kept;
    }
  }

  predicate KeepsSome(kept: map<string, Chunk>, document: string) {
    exists k | k in kept :: kept[k].document == document
  }

  lemma KeptIsBest(versions: map<string, Row>, chunks: map<string, Chunk>, rows: seq<Row>, selected: map<string, Row>,
                   c: string)
    requires Owners(versions, chunks, rows) && SelectedOk(AsSet(rows), selected) && c in chunks
    ensures var d, all := chunks[c].document, AsSet(rows);
      && d in selected && chunks[c].version in versions
      && (chunks[c].version == selected[d].id <==> Best(all, d, versions[chunks[c].version]))
      && (exists k | k in chunks :: chunks[k].version == selected[d].id && chunks[k].document == d)
  {
    var d, all := chunks[c].document, AsSet(rows);
    var row := versions[chunks[c].version];
    assert row in rows && row in all && row.document == d;
    var best := selected[d];
    assert best in rows && versions[best.id] == best;
    if Best(all, d, row) {
      BestIsUnique(all, d, row, best);
    }
    var k :| k in chunks && chunks[k].version == best.id;
  }
}
