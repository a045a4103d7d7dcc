/** `_apply_cache_updates` of migration 0018: rows of `embedding_cache_entries` change their primary
    key through temporary ids, one UPDATE at a time, under two unique keys. */
module TwoPhaseRename {
  import opened Prelude
  import opened EnvelopeCodec

  datatype CacheKey = CacheKey(provider: string, model: string, dimensions: nat, hash: string)
  datatype CacheRow = CacheRow(provider: string, model: string, dimensions: nat, hash: string, embedding: seq<real>) {
    function Key(): CacheKey { CacheKey(provider, model, dimensions, hash) }
  }

  /** Primary key to row. */
  type Table = map<string, CacheRow>

  /** Unique key (embedding_provider, embedding_model, dimensions, content_hash). */
  predicate WideKeys(t: Table) {
    forall a, b | a in t && b in t && a != b :: t[a].Key() != t[b].Key()
  }

  /** One entry of the list of updates. */
  datatype Update = Update(current: string, target: string, provider: string, model: string)

  function Rewrite(row: CacheRow, u: Update): CacheRow {
    row.(provider := u.provider, model := u.model)
  }

  function CurrentIds(us: seq<Update>): (r: seq<string>)
    ensures |r| == |us| && forall i | 0 <= i < |us| :: r[i] == us[i].current
  {
    seq(|us|, i requires 0 <= i < |us| => us[i].current)
  }

  function TargetIds(us: seq<Update>): (r: seq<string>)
    ensures |r| == |us| && forall i | 0 <= i < |us| :: r[i] == us[i].target
  {
    seq(|us|, i requires 0 <= i < |us| => us[i].target)
  }

  /** The updates name different existing rows, and no two rows end up under one id. */
  ghost predicate WellFormed(t: Table, us: seq<Update>) {
    && (forall i | 0 <= i < |us| :: us[i].current in t)
    && (forall i, j | 0 <= i < j < |us| :: us[i].current != us[j].current && us[i].target != us[j].target)
    && (forall i | 0 <= i < |us| :: us[i].target in t ==> us[i].target in CurrentIds(us))
  }

  /** A row's new key differs from every other row's old key and new key. */
  ghost predicate SafeKeys(t: Table, us: seq<Update>) {
    && (forall i, id | 0 <= i < |us| && us[i].current in t && id in t && id != us[i].current ::
          Rewrite(t[us[i].current], us[i]).Key() != t[id].Key())
    && (forall i, j | 0 <= i < j < |us| && us[i].current in t && us[j].current in t ::
          Rewrite(t[us[i].current], us[i]).Key() != Rewrite(t[us[j].current], us[j]).Key())
  }

  /** The key a row has after its update. */
  function NewKey(t: Table, u: Update): CacheKey
    requires u.current in t
  {
    Rewrite(t[u.current], u).Key()
  }

  /** No two rows end up under one key. */
  ghost predicate FinalKeysDiffer(t: Table, us: seq<Update>) {
    && (forall i, id | 0 <= i < |us| && us[i].current in t && id in t && id !in CurrentIds(us) ::
         NewKey(t, us[i]) != t[id].Key())
    && (forall i, j | 0 <= i < j < |us| && us[i].current in t && us[j].current in t ::
         NewKey(t, us[i]) != NewKey(t, us[j]))
  }

  /** Update `k` takes no key that a row updated later still has. */
  ghost predicate FreeKey(t: Table, us: seq<Update>, k: nat)
    requires k < |us|
  {
    forall j | k < j < |us| && us[k].current in t && us[j].current in t :: NewKey(t, us[k]) != t[us[j].current].Key()
  }

  ghost predicate Orderly(t: Table, us: seq<Update>) {
    forall k | 0 <= k < |us| :: FreeKey(t, us, k)
  }

  lemma SafeIsOrderly(t: Table, us: seq<Update>)
    requires WellFormed(t, us) && SafeKeys(t, us)
    ensures FinalKeysDiffer(t, us) && Orderly(t, us)
  {
    assert forall i | 0 <= i < |us| :: CurrentIds(us)[i] == us[i].current;
  }

  /** `t'` is `t` with all updates applied at once. */
  ghost predicate Applied(t: Table, us: seq<Update>, t': Table) {
    && (forall i | 0 <= i < |us| && us[i].current in t ::
         us[i].target in t' && t'[us[i].target] == Rewrite(t[us[i].current], us[i]))
    && (forall id | id in t && id !in CurrentIds(us) :: id in t' && t'[id] == t[id])
    && (forall id | id in t' :: (id in t && id !in CurrentIds(us)) || id in TargetIds(us))
  }

  /** `table` is `t` with the row once at `from[i]` now at `places[i]` and holding `rows[i]`. */
  ghost predicate At(t: Table, from: seq<string>, places: seq<string>, rows: seq<CacheRow>, table: Table) {
    |places| == |rows| == |from| && Placed(t, from, places, rows, table) && Elsewhere(t, from, places, table)
  }

  ghost predicate Placed(t: Table, from: seq<string>, places: seq<string>, rows: seq<CacheRow>, table: Table)
    requires |places| == |rows|
  {
    && (forall i, j | 0 <= i < j < |places| :: places[i] != places[j])
    && (forall i | 0 <= i < |places| :: places[i] in table && table[places[i]] == rows[i])
    && (forall i | 0 <= i < |places| :: places[i] in t ==> places[i] in from)
  }

  ghost predicate Elsewhere(t: Table, from: seq<string>, places: seq<string>, table: Table) {
    && (forall id | id in t && id !in from :: id in table && table[id] == t[id])
    && (forall id | id in table && id !in places :: id in t && id !in from)
  }

  function Moved(t: Table, current: string, id: string, row: CacheRow): Table {
    (t - {current})[id := row]
  }

  lemma StillThere(places: seq<string>, i: nat, id: string, x: string)
    requires i < |places| && x in places && x != places[i]
    ensures x in places[i := id]
  {
    var k :| 0 <= k < |places| && places[k] == x;
    assert places[i := id][k] == x;
  }

  /** Moving the i-th row to a free id. */
  lemma MoveStep(t: Table, from: seq<string>, places: seq<string>, rows: seq<CacheRow>, table: Table,
                 i: nat, id: string, row: CacheRow)
    requires At(t, from, places, rows, table) && i < |from| && id !in table
    ensures At(t, from, places[i := id], rows[i := row], Moved(table, places[i], id, row))
  {
    var table', places' := Moved(table, places[i], id, row), places[i := id];
    assert id in t ==> id in from;
    assert Placed(t, from, places', rows[i := row], table');
    forall x | x in table' && x !in places' ensures x in t && x !in from {
      assert places'[i] == id;
      if x != places[i] && x in places {
        StillThere(places, i, id, x);
        assert false;
      }
    }
    forall x | x in t && x !in from ensures x in table' && table'[x] == t[x] {
      assert x != places[i];
    }
  }

  function TemporaryId(c: Codec, offset: nat, counter: nat, current: string): string {
    CACHE_RESTORE_PREFIX + Decimal(offset) + ":" + Decimal(counter) + ":" + c.digest(current)
  }

  lemma TemporaryIdsDiffer(c: Codec, offset: nat, a: nat, b: nat, current: string)
    requires a != b
    ensures TemporaryId(c, offset, a, current) != TemporaryId(c, offset, b, current)
  {
    var prefix, suffix := CACHE_RESTORE_PREFIX + Decimal(offset) + ":", ":" + c.digest(current);
    var x, y := TemporaryId(c, offset, a, current), TemporaryId(c, offset, b, current);
    assert x == prefix + Decimal(a) + suffix && y == prefix + Decimal(b) + suffix;
    if x == y {
      assert x[|prefix|..|x| - |suffix|] == Decimal(a) && y[|prefix|..|y| - |suffix|] == Decimal(b);
      DecimalInjective(a, b);
    }
  }

  /** The inner loop of the staging phase: found within (taken ids + 1) tries. */
  method FreshTemporaryId(c: Codec, offset: nat, current: string, used: set<string>, reserved: set<string>)
    returns (id: string, tries: nat)
    ensures id !in used && id !in reserved
    ensures 1 <= tries <= |used + reserved| + 1 && id == TemporaryId(c, offset, tries - 1, current)
  {
    var counter := 0;
    var taken := used + reserved;
    while true
      invariant forall i | 0 <= i < counter :: TemporaryId(c, offset, i, current) in taken
      invariant counter <= |taken|
      decreases |taken| - counter
    {
      id := TemporaryId(c, offset, counter, current);
      if id !in used && id !in reserved {
        return id, counter + 1;
      }
      counter := counter + 1;
      forall i, j | 0 <= i < j < counter
        ensures TemporaryId(c, offset, i, current) != TemporaryId(c, offset, j, current)
      {
        TemporaryIdsDiffer(c, offset, i, j, current);
      }
      Pigeonhole((n: nat) => TemporaryId(c, offset, n, current), taken, counter);
    }
  }

  // ---------------------------------------------------------------- first phase

  function OldRows(t: Table, us: seq<Update>): (r: seq<CacheRow>)
    requires forall i | 0 <= i < |us| :: us[i].current in t
    ensures |r| == |us| && forall i | 0 <= i < |us| :: r[i] == t[us[i].current]
  {
    seq(|us|, i requires 0 <= i < |us| => t[us[i].current])
  }

  /** The first `k` rows sit under temporary ids that are nobody's target. */
  ghost predicate Staged(t: Table, us: seq<Update>, k: nat, temporary: seq<string>, table: Table) {
    && k <= |us| == |temporary|
    && (forall i | 0 <= i < |us| :: us[i].current in t)
    && At(t, CurrentIds(us), temporary, OldRows(t, us), table)
    && (forall i | k <= i < |us| :: temporary[i] == us[i].current)
    && (forall i, j | 0 <= i < k && 0 <= j < |us| :: temporary[i] != us[j].target)
  }

  lemma StageStart(t: Table, us: seq<Update>)
    requires WellFormed(t, us)
    ensures Staged(t, us, 0, CurrentIds(us), t)
  {
    assert forall i | 0 <= i < |us| :: CurrentIds(us)[i] in CurrentIds(us);
  }

  function Targets(us: seq<Update>): set<string> {
    set id | id in TargetIds(us)
  }

  lemma StageStep(t: Table, us: seq<Update>, k: nat, temporary: seq<string>, table: Table, id: string)
    requires Staged(t, us, k, temporary, table) && k < |us| && WideKeys(table)
    requires id !in table && id !in Targets(us)
    ensures us[k].current in table
    ensures Staged(t, us, k + 1, temporary[k := id], Moved(table, us[k].current, id, table[us[k].current]))
    ensures WideKeys(Moved(table, us[k].current, id, table[us[k].current]))
  {
    var rows, from := OldRows(t, us), CurrentIds(us);
    hide WideKeys, Moved, At, CurrentIds, TargetIds, OldRows, Targets;
    MoveStep(t, from, temporary, rows, table, k, id, rows[k]);
    assert rows[k := rows[k]] == rows;
  }

  // ---------------------------------------------------------------- second phase

  function NewRows(t: Table, us: seq<Update>, k: nat): (r: seq<CacheRow>)
    requires forall i | 0 <= i < |us| :: us[i].current in t
    ensures |r| == |us|
    ensures forall i | 0 <= i < |us| :: r[i] == if i < k then Rewrite(t[us[i].current], us[i]) else t[us[i].current]
  {
    seq(|us|, i requires 0 <= i < |us| => if i < k then Rewrite(t[us[i].current], us[i]) else t[us[i].current])
  }

  function Places(us: seq<Update>, temporary: seq<string>, k: nat): (r: seq<string>)
    requires |us| == |temporary|
    ensures |r| == |us| && forall i | 0 <= i < |us| :: r[i] == if i < k then us[i].target else temporary[i]
  {
    seq(|us|, i requires 0 <= i < |us| => if i < k then us[i].target else temporary[i])
  }

  /** The first `k` rows sit at their targets with their new values, the others are still staged. */
  ghost predicate Settled(t: Table, us: seq<Update>, k: nat, temporary: seq<string>, table: Table) {
    && k <= |us| == |temporary|
    && (forall i | 0 <= i < |us| :: us[i].current in t)
    && At(t, CurrentIds(us), Places(us, temporary, k), NewRows(t, us, k), table)
    && (forall i, j | 0 <= i < |us| && 0 <= j < |us| :: temporary[i] != us[j].target)
  }

  lemma SettleStart(t: Table, us: seq<Update>, temporary: seq<string>, table: Table)
    requires Staged(t, us, |us|, temporary, table)
    ensures Settled(t, us, 0, temporary, table)
  {
    hide At;
    assert Places(us, temporary, 0) == temporary && NewRows(t, us, 0) == OldRows(t, us);
  }

  lemma TargetFree(t: Table, us: seq<Update>, k: nat, temporary: seq<string>, table: Table)
    requires WellFormed(t, us) && Settled(t, us, k, temporary, table) && k < |us|
    ensures us[k].target !in table
    ensures temporary[k] in table && table[temporary[k]] == t[us[k].current]
  {
    var places := Places(us, temporary, k);
    assert places[k] == temporary[k];
    assert forall i | 0 <= i < |us| :: places[i] != us[k].target;
  }

  /** A row that has not moved on yet still has its old values. */
  lemma StillStaged(t: Table, us: seq<Update>, k: nat, temporary: seq<string>, table: Table, j: nat)
    requires Settled(t, us, k, temporary, table) && k <= j < |us|
    ensures temporary[j] in table && table[temporary[j]] == t[us[j].current]
    ensures forall i | 0 <= i < |us| :: temporary[j] != us[i].target
    ensures k < j ==> temporary[j] != temporary[k]
  {
    var places := Places(us, temporary, k);
    assert places[j] == temporary[j] && NewRows(t, us, k)[j] == t[us[j].current];
    assert places[k] == temporary[k];
  }

  lemma ClashBreaksKeys(table: Table, current: string, id: string, row: CacheRow, other: string)
    requires other in table && other != current && other != id && table[other].Key() == row.Key()
    ensures !WideKeys(Moved(table, current, id, row))
  {
    var table' := Moved(table, current, id, row);
    assert table'[id] == row && table'[other] == table[other];
  }

  lemma TakenKey(t: Table, us: seq<Update>, k: nat) returns (j: nat)
    requires k < |us| && !FreeKey(t, us, k)
    ensures k < j < |us| && us[k].current in t && us[j].current in t
    ensures Rewrite(t[us[k].current], us[k]).Key() == t[us[j].current].Key()
  {
    j :| k < j < |us| && us[k].current in t && us[j].current in t && NewKey(t, us[k]) == t[us[j].current].Key();
  }

  lemma FreeKeepsKeys(t: Table, us: seq<Update>, k: nat, temporary: seq<string>, table: Table)
    requires FinalKeysDiffer(t, us) && Settled(t, us, k, temporary, table) && k < |us| && WideKeys(table)
    requires us[k].target !in table && FreeKey(t, us, k)
    ensures WideKeys(Moved(table, temporary[k], us[k].target, Rewrite(t[us[k].current], us[k])))
  {
    var row, places := Rewrite(t[us[k].current], us[k]), Places(us, temporary, k);
    forall x | x in table && x != temporary[k] ensures table[x].Key() != row.Key() {
      if x in places {
        var j :| 0 <= j < |us| && places[j] == x;
        assert j != k && table[x] == NewRows(t, us, k)[j];
      } else {
        assert us[k].current == CurrentIds(us)[k];
      }
    }
  }

  /** The next row can move to its target, and doing so with its new values clashes with a row exactly if
      a row that is still staged has the new key; settled rows and rows that are not updated never have it. */
  lemma SettleStep(t: Table, us: seq<Update>, k: nat, temporary: seq<string>, table: Table)
    requires WellFormed(t, us) && Settled(t, us, k, temporary, table) && k < |us| && WideKeys(table)
    ensures us[k].target !in table && |temporary| == |us| && temporary[k] in table
    ensures var table' := Moved(table, temporary[k], us[k].target, Rewrite(table[temporary[k]], us[k]));
      Settled(t, us, k + 1, temporary, table') && (FinalKeysDiffer(t, us) ==> (WideKeys(table') <==> FreeKey(t, us, k)))
  {
    hide At, Moved, WideKeys, FinalKeysDiffer, FreeKey, WellFormed;
    TargetFree(t, us, k, temporary, table);
    if FinalKeysDiffer(t, us) {
      if FreeKey(t, us, k) {
        FreeKeepsKeys(t, us, k, temporary, table);
      } else {
        var j := TakenKey(t, us, k);
        StillStaged(t, us, k, temporary, table, j);
        ClashBreaksKeys(table, temporary[k], us[k].target, Rewrite(t[us[k].current], us[k]), temporary[j]);
      }
    }
    var places, rows, row := Places(us, temporary, k), NewRows(t, us, k), Rewrite(t[us[k].current], us[k]);
    MoveStep(t, CurrentIds(us), places, rows, table, k, us[k].target, row);
    assert places[k := us[k].target] == Places(us, temporary, k + 1);
    assert rows[k := row] == NewRows(t, us, k + 1);
  }

  lemma SettleEnd(t: Table, us: seq<Update>, temporary: seq<string>, table: Table)
    requires Settled(t, us, |us|, temporary, table)
    ensures Applied(t, us, table)
  {
    assert Places(us, temporary, |us|) == TargetIds(us);
    assert forall i | 0 <= i < |us| :: TargetIds(us)[i] == us[i].target;
  }

  // ---------------------------------------------------------------- the table itself

  /** The table with its two unique keys in force: no statement leaves a table that breaks one. */
  class CacheStore {
    var rows: Table

    constructor (rows: Table)
      requires WideKeys(rows)
      ensures this.rows == rows
    {
      this.rows := rows;
    }

    /** UPDATE ... SET id = ..., ... WHERE id = :current, rejected when it would break a key. */
    method UpdateRow(current: string, id: string, row: CacheRow) returns (ok: bool)
      requires WideKeys(rows) && current in rows
      modifies this
      ensures WideKeys(rows)
      ensures ok == ((id == current || id !in old(rows)) && WideKeys(Moved(old(rows), current, id, row)))
      ensures rows == if ok then Moved(old(rows), current, id, row) else old(rows)
    {
      ok := (id == current || id !in rows) && WideKeys(Moved(rows, current, id, row));
      if ok {
        rows := Moved(rows, current, id, row);
      }
    }

    /** First phase: every row to be renamed moves to a temporary id. No statement can fail. */
    method Stage(c: Codec, us: seq<Update>) returns (temporary: seq<string>)
      requires WideKeys(rows) && WellFormed(rows, us)
      modifies this
      ensures WideKeys(rows) && Staged(old(rows), us, |us|, temporary, rows)
    {
      ghost var t := rows;
      temporary := CurrentIds(us);
      StageStart(t, us);
      hide *;
      var reserved := Targets(us);
      for k := 0 to |us|
        invariant WideKeys(rows) && Staged(t, us, k, temporary, rows)
      {
        var id, tries := FreshTemporaryId(c, k, us[k].current, rows.Keys, reserved);
        StageStep(t, us, k, temporary, rows, id);
        var ok := UpdateRow(us[k].current, id, rows[us[k].current]);
        temporary := temporary[k := id];
      }
    }

    /** Second phase: every staged row moves to its target and takes its new values. */
    method Settle(us: seq<Update>, temporary: seq<string>, ghost t: Table) returns (ok: bool)
      requires WideKeys(rows) && WellFormed(t, us) && Staged(t, us, |us|, temporary, rows)
      modifies this
      ensures WideKeys(rows)
      ensures ok ==> Applied(t, us, rows)
      ensures FinalKeysDiffer(t, us) ==> (ok <==> Orderly(t, us))
    {
      hide FinalKeysDiffer, FreeKey, WideKeys, WellFormed, Staged, Settled, Applied, Moved, Rewrite;
      SettleStart(t, us, temporary, rows);
      for k := 0 to |us|
        invariant WideKeys(rows) && Settled(t, us, k, temporary, rows)
        invariant FinalKeysDiffer(t, us) ==> forall i | 0 <= i < k :: FreeKey(t, us, i)
      {
        SettleStep(t, us, k, temporary, rows);
        ok := UpdateRow(temporary[k], us[k].target, Rewrite(rows[temporary[k]], us[k]));
        if !ok {
          return;
        }
      }
      SettleEnd(t, us, temporary, rows);
      ok := true;
    }

    /** `_apply_cache_updates`. Any well-formed change of ids is reached, swaps and chains included;
        only a new value can make a statement fail, by clashing with a row updated later. */
    method ApplyUpdates(c: Codec, us: seq<Update>) returns (ok: bool)
      requires WideKeys(rows) && WellFormed(rows, us)
      modifies this
      ensures WideKeys(rows)
      ensures ok ==> Applied(old(rows), us, rows)
      ensures FinalKeysDiffer(old(rows), us) ==> (ok <==> Orderly(old(rows), us))
      ensures SafeKeys(old(rows), us) ==> ok
    {
      ghost var t := rows;
      var temporary := Stage(c, us);
      hide *;
      if SafeKeys(t, us) {
        SafeIsOrderly(t, us);
      }
      ok := Settle(us, temporary, t);
    }
  }
}
