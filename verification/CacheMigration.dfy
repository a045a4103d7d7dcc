/** Migration 0018 over `embedding_cache_entries`: downgrade moves the provider into the primary
    key's text and gives clashing rows fresh model names, upgrade restores both. */
module CacheMigration {
  import opened Prelude
  import opened EnvelopeCodec
  import opened CompatibilityNames
  import opened TwoPhaseRename

  /** Unique key (embedding_model, dimensions, content_hash) of the older schema. */
  predicate NarrowKeys(t: Table) {
    forall a, b | a in t && b in t && a != b ::
      t[a].model != t[b].model || t[a].dimensions != t[b].dimensions || t[a].hash != t[b].hash
  }

  /** Drop the provider column and add it again with its server default. */
  function ResetProvider(t: Table): Table {
    map id | id in t :: t[id].(provider := LEGACY_PROVIDER)
  }

  /** A step finishes, raises RuntimeError, or an UPDATE violates a key. */
  datatype Outcome = Done | Refused | IntegrityError

  // ---------------------------------------------------------------- what a downgrade leaves

  function Identity(id: string, row: CacheRow): string {
    id + "\0" + row.model + "\0" + Decimal(row.dimensions) + "\0" + row.hash + "\0" + row.provider
  }

  function SlotsOf(t: Table): Slots {
    map id | id in t ::
      Slot(Group(OfContent(t[id].dimensions, t[id].hash), t[id].model), t[id].provider == LEGACY_PROVIDER,
           Identity(id, t[id]))
  }

  lemma SlotIs(t: Table, id: string)
    requires id in t
    ensures id in SlotsOf(t) && SlotsOf(t)[id].group == Group(OfContent(t[id].dimensions, t[id].hash), t[id].model)
    ensures SlotsOf(t)[id].legacy <==> t[id].provider == LEGACY_PROVIDER
  {
    hide Identity;
  }

  ghost predicate SameGroup(t: Table, a: string, b: string) {
    a in t && b in t && t[a].dimensions == t[b].dimensions && t[a].hash == t[b].hash && t[a].model == t[b].model
  }

  /** The row that keeps its model name: a legacy row, or in a group without one the row with the smallest id. */
  ghost predicate LeadsGroup(t: Table, id: string)
    requires id in t
  {
    t[id].provider == LEGACY_PROVIDER ||
    forall o | o != id && SameGroup(t, id, o) :: t[o].provider != LEGACY_PROVIDER && Less(id, o)
  }

  lemma LeadsIs(t: Table, id: string)
    requires id in t
    ensures id in SlotsOf(t) && (Leads(SlotsOf(t), id) <==> LeadsGroup(t, id))
  {
    hide SlotsOf;
    SlotIs(t, id);
    forall o ensures o in SlotsOf(t) <==> o in t {
      SlotKeys(t);
    }
    forall o | o in t
      ensures SlotsOf(t)[o].group == SlotsOf(t)[id].group <==> SameGroup(t, id, o)
      ensures SlotsOf(t)[o].legacy <==> t[o].provider == LEGACY_PROVIDER
    {
      SlotIs(t, o);
    }
  }

  lemma SlotKeys(t: Table)
    ensures SlotsOf(t).Keys == t.Keys
  {
    hide Identity;
  }

  /** The rows of a group are listed by id, as the SELECT does. */
  ghost predicate ListedById(t: Table, order: seq<string>) {
    forall i, j | 0 <= i < j < |order| && SameGroup(t, order[i], order[j]) :: Less(order[i], order[j])
  }

  /** Row `i` of the SELECT is legacy, or neither a legacy row nor an earlier row shares its group. */
  ghost predicate Earliest(t: Table, order: seq<string>, i: nat)
    requires i < |order| && order[i] in t
  {
    t[order[i]].provider == LEGACY_PROVIDER ||
    forall j | 0 <= j < |order| && j != i && SameGroup(t, order[i], order[j]) ::
      t[order[j]].provider != LEGACY_PROVIDER && i < j
  }

  lemma EarliestLeads(t: Table, order: seq<string>, i: nat)
    requires Enumerates(order, t.Keys) && ListedById(t, order) && i < |order| && order[i] in t
    ensures LeadsGroup(t, order[i]) <==> Earliest(t, order, i)
  {
    var id := order[i];
    if Earliest(t, order, i) && t[id].provider != LEGACY_PROVIDER {
      forall o | o != id && SameGroup(t, id, o) ensures t[o].provider != LEGACY_PROVIDER && Less(id, o) {
        assert o in t.Keys && o in order;
        var j :| 0 <= j < |order| && order[j] == o;
      }
    }
    if LeadsGroup(t, id) && t[id].provider != LEGACY_PROVIDER {
      forall j | 0 <= j < |order| && j != i && SameGroup(t, id, order[j])
        ensures t[order[j]].provider != LEGACY_PROVIDER && i < j
      {
        LessIsTotal(id, order[j]);
        assert SameGroup(t, order[j], id);
      }
    }
  }

  lemma NoLegacyClash(t: Table)
    requires WideKeys(t)
    ensures !LegacyClash(SlotsOf(t))
  {
    hide Identity;
  }

  function PayloadOf(id: string, row: CacheRow): Payload {
    Payload(Num(1), Str(id), Null, Str(row.provider), Str(row.model), Null)
  }

  /** The primary key a row has in the older schema. */
  function PreparedId(c: Codec, id: string, row: CacheRow): string {
    if row.provider == LEGACY_PROVIDER then id else Encode(c, CACHE_ENVELOPE_PREFIX, PayloadOf(id, row))
  }

  /** Some row already has the id that a downgrade would give to a row of a real provider. */
  ghost predicate Collision(c: Codec, t: Table) {
    exists a | a in t :: t[a].provider != LEGACY_PROVIDER && PreparedId(c, a, t[a]) in t
  }

  /** `t'` is `t` in the form the older schema can hold. */
  ghost predicate Prepared(c: Codec, t: Table, names: Names, t': Table)
    requires names.Keys == t.Keys
  {
    && (forall id | id in t ::
         PreparedId(c, id, t[id]) in t' && t'[PreparedId(c, id, t[id])] == t[id].(model := names[id]))
    && (forall p | p in t' :: exists id | id in t :: PreparedId(c, id, t[id]) == p)
  }

  /** What the upgrade reads from a primary key. */
  datatype Restoration = Bad | Same | Rewritten(id: string, provider: string, model: string)

  function Restore(c: Codec, id: string): Restoration {
    match Decode(c, CACHE_ENVELOPE_PREFIX, Some(id))
    case NotEnvelope => Same
    case Malformed => Bad
    case Object(p) =>
      if p.id.Str? && p.provider.Str? && p.model.Str? then Rewritten(p.id.s, p.provider.s, p.model.s) else Bad
  }

  /** The id carries the prefix, but what follows is not an object of format 1 with id, provider and model. */
  ghost predicate Unreadable(c: Codec, id: string) {
    CACHE_ENVELOPE_PREFIX <= id &&
    match c.unpack(id[|CACHE_ENVELOPE_PREFIX|..])
    case None => true
    case Some(p) => p.format != Num(1) || !p.id.Str? || !p.provider.Str? || !p.model.Str?
  }

  /** One unreadable id is enough for the upgrade to refuse the table. */
  lemma UnreadableIsRefused(c: Codec, t: Table, id: string)
    requires id in t && Unreadable(c, id)
    ensures !Restorable(c, t)
  {
    assert Restore(c, id).Bad?;
  }

  function FinalId(c: Codec, id: string): string {
    var r := Restore(c, id);
    if r.Rewritten? then r.id else id
  }

  function FinalRow(c: Codec, id: string, row: CacheRow): CacheRow {
    var r := Restore(c, id);
    if r.Rewritten? then row.(provider := r.provider, model := r.model) else row
  }

  /** The checks of `_restore_cache_rows` that come before its first UPDATE. */
  ghost predicate Restorable(c: Codec, t: Table) {
    && (forall id | id in t :: !Restore(c, id).Bad?)
    && (forall a, b | a in t && b in t && a != b ::
          FinalId(c, a) != FinalId(c, b) && FinalRow(c, a, t[a]).Key() != FinalRow(c, b, t[b]).Key())
  }

  ghost predicate SafeToRestore(c: Codec, t: Table) {
    forall id | id in t ::
      t[id].provider == LEGACY_PROVIDER
      && (Restore(c, id).Rewritten? ==> FinalRow(c, id, t[id]).provider != LEGACY_PROVIDER)
  }

  ghost predicate IsRestored(c: Codec, t: Table, t': Table) {
    && (forall id | id in t :: FinalId(c, id) in t' && t'[FinalId(c, id)] == FinalRow(c, id, t[id]))
    && (forall p | p in t' :: exists id | id in t :: FinalId(c, id) == p)
  }

  /** A legacy row that would be mistaken for a downgraded one. */
  predicate Enveloped(id: string, row: CacheRow) {
    row.provider == LEGACY_PROVIDER && CACHE_ENVELOPE_PREFIX <= id
  }

  ghost predicate NoLegacyEnvelope(t: Table) {
    forall id | id in t :: !Enveloped(id, t[id])
  }

  // ---------------------------------------------------------------- facts about single ids

  lemma RestorePrepared(c: Codec, id: string, row: CacheRow)
    requires c.Faithful() && row.provider != LEGACY_PROVIDER
    ensures Restore(c, PreparedId(c, id, row)) == Rewritten(id, row.provider, row.model)
    ensures |id| < |PreparedId(c, id, row)|
  {
    DecodeEncode(c, CACHE_ENVELOPE_PREFIX, PayloadOf(id, row));
  }

  lemma RestoreShrinks(c: Codec, id: string)
    requires c.Faithful() && Restore(c, id).Rewritten?
    ensures |FinalId(c, id)| < |id|
  {
    DecodeShrinks(c, CACHE_ENVELOPE_PREFIX, id);
  }

  lemma PreparedIdsDiffer(c: Codec, t: Table, a: string, b: string)
    requires c.Faithful() && a in t && b in t && a != b && !Collision(c, t)
    ensures PreparedId(c, a, t[a]) != PreparedId(c, b, t[b])
  {
    hide Restore;
    if t[a].provider != LEGACY_PROVIDER { RestorePrepared(c, a, t[a]); }
    if t[b].provider != LEGACY_PROVIDER { RestorePrepared(c, b, t[b]); }
  }

  // ---------------------------------------------------------------- preparation

  function UpdateFor(c: Codec, id: string, row: CacheRow, name: string): Update {
    Update(id, PreparedId(c, id, row), row.provider, name)
  }

  /** `us` holds exactly those of the rows in `seen` that a preparation changes. */
  ghost predicate Prepares(c: Codec, t: Table, names: Names, seen: set<string>, us: seq<Update>)
    requires names.Keys == t.Keys && seen <= t.Keys
  {
    && (forall i | 0 <= i < |us| ::
         us[i].current in seen && us[i] == UpdateFor(c, us[i].current, t[us[i].current], names[us[i].current]))
    && (forall i, j | 0 <= i < j < |us| :: us[i].current != us[j].current)
    && (forall id | id in seen && id !in CurrentIds(us) :: PreparedId(c, id, t[id]) == id && names[id] == t[id].model)
  }

  ghost predicate PreparesAll(c: Codec, t: Table, names: Names, us: seq<Update>)
    requires names.Keys == t.Keys
  {
    Prepares(c, t, names, t.Keys, us)
  }

  lemma PreparesWellFormed(c: Codec, t: Table, names: Names, us: seq<Update>)
    requires c.Faithful() && names.Keys == t.Keys && PreparesAll(c, t, names, us) && !Collision(c, t)
    ensures WellFormed(t, us)
  {
    assert forall i | 0 <= i < |us| :: us[i].target == PreparedId(c, us[i].current, t[us[i].current]);
    forall i, j | 0 <= i < j < |us| ensures us[i].target != us[j].target {
      PreparedIdsDiffer(c, t, us[i].current, us[j].current);
    }
    forall i | 0 <= i < |us| && us[i].target in t ensures us[i].target in CurrentIds(us) {
      assert us[i].target == us[i].current == CurrentIds(us)[i];
    }
  }

  lemma PreparesSafeKeys(c: Codec, t: Table, names: Names, us: seq<Update>)
    requires names.Keys == t.Keys && PreparesAll(c, t, names, us) && WideKeys(t) && Naming(SlotsOf(t), names)
    ensures SafeKeys(t, us)
  {
    hide Naming, SlotsOf, PreparedId, CurrentIds;
    forall i, id | 0 <= i < |us| && id in t && id != us[i].current
      ensures Rewrite(t[us[i].current], us[i]).Key() != t[id].Key()
      ensures Rewrite(t[us[i].current], us[i]).Key() != t[id].(model := names[id]).Key()
    {
      var a := us[i].current;
      if t[a].dimensions == t[id].dimensions && t[a].hash == t[id].hash {
        SlotIs(t, a);
        SlotIs(t, id);
        NamePair(SlotsOf(t), names, a, id);
      }
    }
  }

  lemma AppliedIsPrepared(c: Codec, t: Table, names: Names, us: seq<Update>, t': Table)
    requires names.Keys == t.Keys && PreparesAll(c, t, names, us) && Applied(t, us, t')
    ensures Prepared(c, t, names, t')
  {
    forall id | id in t
      ensures PreparedId(c, id, t[id]) in t' && t'[PreparedId(c, id, t[id])] == t[id].(model := names[id])
    {
      if id in CurrentIds(us) {
        var i :| 0 <= i < |us| && CurrentIds(us)[i] == id;
        assert us[i] == UpdateFor(c, id, t[id], names[id]);
      }
    }
    forall p | p in t' ensures exists id | id in t :: PreparedId(c, id, t[id]) == p {
      if p in TargetIds(us) {
        var i :| 0 <= i < |us| && TargetIds(us)[i] == p;
        assert PreparedId(c, us[i].current, t[us[i].current]) == p;
      } else {
        assert PreparedId(c, p, t[p]) == p;
      }
    }
  }

  /** After preparation the provider column can go: the narrower key is unique. */
  lemma PreparedIsNarrow(c: Codec, t: Table, names: Names, t': Table)
    requires names.Keys == t.Keys && Naming(SlotsOf(t), names) && Prepared(c, t, names, t')
    ensures NarrowKeys(t')
  {
    hide Naming, SlotsOf, PreparedId;
    forall p, q | p in t' && q in t' && p != q && t'[p].dimensions == t'[q].dimensions && t'[p].hash == t'[q].hash
      ensures t'[p].model != t'[q].model
    {
      var a :| a in t && PreparedId(c, a, t[a]) == p;
      var b :| b in t && PreparedId(c, b, t[b]) == q;
      SlotIs(t, a);
      SlotIs(t, b);
      NamePair(SlotsOf(t), names, a, b);
    }
  }

  /** The ids taken after the rows in `seen`, none of which was refused. */
  ghost predicate Taken(c: Codec, t: Table, seen: set<string>, ids: set<string>)
    requires seen <= t.Keys
  {
    && ids == t.Keys + (set id | id in seen :: PreparedId(c, id, t[id]))
    && (forall id | id in seen && t[id].provider != LEGACY_PROVIDER :: PreparedId(c, id, t[id]) !in t)
  }

  lemma PreparesOneMore(c: Codec, t: Table, names: Names, seen: set<string>, us: seq<Update>, id: string,
                        us': seq<Update>)
    requires names.Keys == t.Keys && seen <= t.Keys && Prepares(c, t, names, seen, us)
    requires id in t && id !in seen
    requires us' == if PreparedId(c, id, t[id]) != id || names[id] != t[id].model
                    then us + [UpdateFor(c, id, t[id], names[id])] else us
    ensures Prepares(c, t, names, seen + {id}, us')
  {
    hide PreparedId, CurrentIds;
    CurrentIdsGrow(us, us');
    forall i | 0 <= i < |us'|
      ensures us'[i].current in seen + {id}
      ensures us'[i] == UpdateFor(c, us'[i].current, t[us'[i].current], names[us'[i].current])
    {
      assert i < |us| ==> us'[i] == us[i];
    }
    if us' != us {
      assert us'[|us|].current == id;
    }
  }

  lemma CurrentIdsGrow(us: seq<Update>, us': seq<Update>)
    requires us <= us'
    ensures forall x | x in CurrentIds(us) :: x in CurrentIds(us')
    ensures forall i | 0 <= i < |us'| :: us'[i].current in CurrentIds(us')
  {
    assert forall i | 0 <= i < |us'| :: CurrentIds(us')[i] in CurrentIds(us');
    forall x | x in CurrentIds(us) ensures x in CurrentIds(us') {
      var i :| 0 <= i < |us| && CurrentIds(us)[i] == x;
      assert CurrentIds(us')[i] == x;
    }
  }

  lemma TakenOneMore(c: Codec, t: Table, seen: set<string>, ids: set<string>, id: string)
    requires c.Faithful() && seen <= t.Keys && Taken(c, t, seen, ids) && id in t
    requires PreparedId(c, id, t[id]) in ids ==> PreparedId(c, id, t[id]) == id
    ensures Taken(c, t, seen + {id}, ids + {PreparedId(c, id, t[id])})
  {
    if t[id].provider != LEGACY_PROVIDER {
      RestorePrepared(c, id, t[id]);
    }
  }

  lemma TakenMeansCollision(c: Codec, t: Table, seen: set<string>, ids: set<string>, id: string)
    requires c.Faithful() && seen <= t.Keys && Taken(c, t, seen, ids) && id in t && id !in seen
    requires PreparedId(c, id, t[id]) in ids && PreparedId(c, id, t[id]) != id
    ensures Collision(c, t)
  {
    var x := PreparedId(c, id, t[id]);
    if x !in t && !Collision(c, t) {
      var y :| y in seen && PreparedId(c, y, t[y]) == x;
      PreparedIdsDiffer(c, t, y, id);
    }
  }

  lemma InKeys(order: seq<string>, t: Table)
    requires Enumerates(order, t.Keys)
    ensures forall i | 0 <= i < |order| :: order[i] in t
  {
    SeenNone(order, t.Keys);
  }

  /** The collecting loop before its i-th turn. */
  ghost predicate Collecting(c: Codec, t: Table, names: Names, order: seq<string>, i: nat,
                             seen: set<string>, us: seq<Update>, ids: set<string>)
    requires names.Keys == t.Keys
  {
    SeenUpTo(order, t.Keys, i, seen) && Prepares(c, t, names, seen, us) && Taken(c, t, seen, ids)
  }

  lemma CollectingStart(c: Codec, t: Table, names: Names, order: seq<string>)
    requires names.Keys == t.Keys && Enumerates(order, t.Keys)
    ensures Collecting(c, t, names, order, 0, {}, [], t.Keys)
  {
    SeenNone(order, t.Keys);
  }

  lemma CollectingStep(c: Codec, t: Table, names: Names, order: seq<string>, i: nat,
                       seen: set<string>, us: seq<Update>, ids: set<string>, us': seq<Update>)
    requires c.Faithful() && names.Keys == t.Keys && Enumerates(order, t.Keys) && i < |order|
    requires Collecting(c, t, names, order, i, seen, us, ids) && order[i] in t
    requires var target := PreparedId(c, order[i], t[order[i]]);
      && (target in ids ==> target == order[i])
      && us' == if target != order[i] || names[order[i]] != t[order[i]].model
                then us + [UpdateFor(c, order[i], t[order[i]], names[order[i]])] else us
    ensures Collecting(c, t, names, order, i + 1, seen + {order[i]}, us', ids + {PreparedId(c, order[i], t[order[i]])})
  {
    SeenOneMore(order, t.Keys, i, seen);
    hide Prepares, Taken, Enumerates, SeenUpTo, PreparedId, UpdateFor, Codec.Faithful;
    PreparesOneMore(c, t, names, seen, us, order[i], us');
    TakenOneMore(c, t, seen, ids, order[i]);
  }

  lemma CollectingRefused(c: Codec, t: Table, names: Names, order: seq<string>, i: nat,
                          seen: set<string>, us: seq<Update>, ids: set<string>)
    requires c.Faithful() && names.Keys == t.Keys && Collecting(c, t, names, order, i, seen, us, ids)
    requires i < |order| && order[i] in t
    requires PreparedId(c, order[i], t[order[i]]) in ids && PreparedId(c, order[i], t[order[i]]) != order[i]
    ensures Collision(c, t)
  {
    TakenMeansCollision(c, t, seen, ids, order[i]);
  }

  lemma CollectingEnd(c: Codec, t: Table, names: Names, order: seq<string>,
                      seen: set<string>, us: seq<Update>, ids: set<string>)
    requires names.Keys == t.Keys && Enumerates(order, t.Keys)
    requires Collecting(c, t, names, order, |order|, seen, us, ids)
    ensures PreparesAll(c, t, names, us) && !Collision(c, t)
  {
    SeenAll(order, t.Keys, seen);
  }

  /** The second pass of `_prepare_cache_rows`: new ids, the collision check, the updates. */
  method CollectUpdates(c: Codec, t: Table, names: Names, order: seq<string>) returns (ok: bool, us: seq<Update>)
    requires c.Faithful() && names.Keys == t.Keys && Enumerates(order, t.Keys)
    ensures ok <==> !Collision(c, t)
    ensures ok ==> PreparesAll(c, t, names, us)
  {
    us := [];
    var ids := t.Keys;
    ghost var seen: set<string> := {};
    CollectingStart(c, t, names, order);
    InKeys(order, t);
    hide *;
    for i := 0 to |order|
      invariant Collecting(c, t, names, order, i, seen, us, ids)
    {
      var id, us' := order[i], us;
      var target := PreparedId(c, id, t[id]);
      if target in ids && target != id {
        CollectingRefused(c, t, names, order, i, seen, us, ids);
        return false, us;
      }
      if target != id || names[id] != t[id].model {
        us' := us + [UpdateFor(c, id, t[id], names[id])];
      }
      CollectingStep(c, t, names, order, i, seen, us, ids, us');
      us, ids, seen := us', ids + {target}, seen + {id};
    }
    CollectingEnd(c, t, names, order, seen, us, ids);
    ok := true;
  }

  /** The prepared row of `id` keeps its model name if and only if it leads its group. */
  ghost predicate KeepsModel(c: Codec, t: Table, t': Table, id: string)
    requires id in t
  {
    var p := PreparedId(c, id, t[id]);
    p in t' && (t'[p].model == t[id].model <==> LeadsGroup(t, id))
  }

  lemma KeptModels(c: Codec, t: Table, names: Names, t': Table, order: seq<string>)
    requires names.Keys == t.Keys && Prepared(c, t, names, t') && Enumerates(order, t.Keys)
    requires forall id | id in SlotsOf(t) ::
      id in names && (names[id] == SlotsOf(t)[id].group.name <==> Leads(SlotsOf(t), id))
    ensures forall id | id in t :: KeepsModel(c, t, t', id)
    ensures ListedById(t, order) ==>
      forall i | 0 <= i < |order| && order[i] in t :: LeadsGroup(t, order[i]) <==> Earliest(t, order, i)
  {
    hide SlotsOf, Leads, LeadsGroup, ListedById, Earliest, PreparedId, Enumerates;
    forall id | id in t ensures KeepsModel(c, t, t', id) {
      LeadsIs(t, id);
      SlotIs(t, id);
    }
    forall i | 0 <= i < |order| && order[i] in t && ListedById(t, order)
      ensures LeadsGroup(t, order[i]) <==> Earliest(t, order, i)
    {
      EarliestLeads(t, order, i);
    }
  }

  /** `_prepare_cache_rows`, for any order the SELECT may return. It is refused exactly when some
      row already has the id another row would be given, and then nothing has been written. */
  method PrepareRows(c: Codec, store: CacheStore, order: seq<string>) returns (outcome: Outcome, ghost names: Names)
    requires WideKeys(store.rows) && c.Faithful() && Enumerates(order, store.rows.Keys)
    modifies store
    ensures WideKeys(store.rows)
    ensures outcome == (if Collision(c, old(store.rows)) then Refused else Done)
    ensures outcome == Refused ==> store.rows == old(store.rows)
    ensures outcome == Done ==> names.Keys == old(store.rows).Keys && Naming(SlotsOf(old(store.rows)), names)
    ensures outcome == Done ==> Prepared(c, old(store.rows), names, store.rows) && NarrowKeys(store.rows)
    ensures outcome == Done ==> forall id | id in old(store.rows) :: KeepsModel(c, old(store.rows), store.rows, id)
    ensures outcome == Done && ListedById(old(store.rows), order) ==>
      forall i | 0 <= i < |order| && order[i] in old(store.rows) ::
        LeadsGroup(old(store.rows), order[i]) <==> Earliest(old(store.rows), order, i)
  {
    hide *;
    var t := store.rows;
    NoLegacyClash(t);
    SlotKeys(t);
    var naming := AssignNames(c, "cache", SlotsOf(t), order);
    names := naming.value;
    NamingKeys(SlotsOf(t), names);
    var ok, us := CollectUpdates(c, t, naming.value, order);
    if !ok {
      return Refused, names;
    }
    PreparesWellFormed(c, t, names, us);
    PreparesSafeKeys(c, t, names, us);
    ok := store.ApplyUpdates(c, us);
    AppliedIsPrepared(c, t, names, us, store.rows);
    PreparedIsNarrow(c, t, names, store.rows);
    KeptModels(c, t, names, store.rows, order);
    outcome := Done;
  }

  // ---------------------------------------------------------------- restoration

  function RestoreFor(c: Codec, id: string, row: CacheRow): Update {
    Update(id, FinalId(c, id), FinalRow(c, id, row).provider, FinalRow(c, id, row).model)
  }

  /** `us` holds exactly those of the rows in `seen` that carry an envelope. */
  ghost predicate Restores(c: Codec, t: Table, seen: set<string>, us: seq<Update>)
    requires seen <= t.Keys
  {
    && (forall i | 0 <= i < |us| :: us[i].current in seen && us[i] == RestoreFor(c, us[i].current, t[us[i].current]))
    && (forall i, j | 0 <= i < j < |us| :: us[i].current != us[j].current)
    && (forall i | 0 <= i < |us| :: Restore(c, us[i].current).Rewritten?)
    && (forall id | id in seen && id !in CurrentIds(us) :: Restore(c, id).Same?)
  }

  /** The updates the upgrade collects, in the order of the SELECT. */
  function RestoreUpdates(c: Codec, t: Table, order: seq<string>): seq<Update> {
    if order == [] then []
    else
      var front, last := RestoreUpdates(c, t, order[..|order| - 1]), order[|order| - 1];
      if last in t && Restore(c, last).Rewritten? then front + [RestoreFor(c, last, t[last])] else front
  }

  lemma {:induction false} RestoreUpdatesFrom(c: Codec, t: Table, order: seq<string>)
    ensures forall u | u in RestoreUpdates(c, t, order) ::
      u.current in order && u.current in t && Restore(c, u.current).Rewritten?
        && u == RestoreFor(c, u.current, t[u.current])
    ensures forall id | id in order && id in t && Restore(c, id).Rewritten? ::
      RestoreFor(c, id, t[id]) in RestoreUpdates(c, t, order)
  {
    if order != [] {
      RestoreUpdatesFrom(c, t, order[..|order| - 1]);
    }
  }

  lemma RestoreUpdatesStep(c: Codec, t: Table, order: seq<string>, i: nat)
    requires i < |order| && order[i] in t
    ensures RestoreUpdates(c, t, order[..i + 1]) ==
      if Restore(c, order[i]).Rewritten? then RestoreUpdates(c, t, order[..i]) + [RestoreFor(c, order[i], t[order[i]])]
      else RestoreUpdates(c, t, order[..i])
  {
    assert order[..i + 1][..i] == order[..i];
  }

  /** No row gets back the key that a row read later still has. */
  ghost predicate InTurn(c: Codec, t: Table, order: seq<string>) {
    forall i, j | 0 <= i < j < |order| && order[i] in t && order[j] in t ::
      FinalRow(c, order[i], t[order[i]]).Key() != t[order[j]].Key()
  }

  /** None of these rows gets back the key that row `x` has now. */
  ghost predicate TakesNone(c: Codec, t: Table, order: seq<string>, x: string) {
    forall id | id in order && id in t && x in t :: FinalRow(c, id, t[id]).Key() != t[x].Key()
  }

  ghost predicate UpdatesTakeNone(t: Table, us: seq<Update>, x: string) {
    forall u | u in us && u.current in t && x in t :: NewKey(t, u) != t[x].Key()
  }

  lemma OrderlyMore(t: Table, us: seq<Update>, u: Update)
    ensures Orderly(t, us + [u]) <==> Orderly(t, us) && UpdatesTakeNone(t, us, u.current)
  {
    var us' := us + [u];
    forall k | 0 <= k < |us|
      ensures FreeKey(t, us', k) <==>
        FreeKey(t, us, k) && (us[k].current in t && u.current in t ==> NewKey(t, us[k]) != t[u.current].Key())
    {
      assert us'[k] == us[k] && us'[|us|] == u;
      assert forall j | 0 <= j < |us| :: us'[j] == us[j];
    }
    hide FreeKey, NewKey;
    assert FreeKey(t, us', |us|) by { LastIsFree(t, us'); }
    if Orderly(t, us') {
      forall k | 0 <= k < |us| ensures FreeKey(t, us, k) {
        assert FreeKey(t, us', k);
      }
      forall v | v in us && v.current in t && u.current in t ensures NewKey(t, v) != t[u.current].Key() {
        var k :| 0 <= k < |us| && us[k] == v;
        assert FreeKey(t, us', k);
      }
    } else {
      var k :| 0 <= k < |us'| && !FreeKey(t, us', k);
      assert k < |us| && us[k] in us;
    }
  }

  lemma LastIsFree(t: Table, us: seq<Update>)
    requires us != []
    ensures FreeKey(t, us, |us| - 1)
  {
  }

  lemma InTurnMore(c: Codec, t: Table, order: seq<string>, x: string)
    ensures InTurn(c, t, order + [x]) <==> InTurn(c, t, order) && TakesNone(c, t, order, x)
  {
    hide FinalRow;
    var order' := order + [x];
    if InTurn(c, t, order') {
      forall i, j | 0 <= i < j < |order| && order[i] in t && order[j] in t
        ensures FinalRow(c, order[i], t[order[i]]).Key() != t[order[j]].Key()
      {
        assert order'[i] == order[i] && order'[j] == order[j];
      }
      forall id | id in order && id in t && x in t ensures FinalRow(c, id, t[id]).Key() != t[x].Key() {
        var i :| 0 <= i < |order| && order[i] == id;
        assert order'[i] == id && order'[|order|] == x;
      }
    }
  }

  /** Two rows meet only if both are rewritten. */
  lemma LastUnchanged(c: Codec, t: Table, id: string, x: string)
    requires WideKeys(t) && Restorable(c, t) && id in t && x in t && id != x
    ensures !(Restore(c, id).Rewritten? && Restore(c, x).Rewritten?) ==> FinalRow(c, id, t[id]).Key() != t[x].Key()
  {
    hide Restore, FinalId;
  }

  lemma NewKeyIs(c: Codec, t: Table, id: string)
    requires id in t && Restore(c, id).Rewritten?
    ensures RestoreFor(c, id, t[id]).current == id
      && NewKey(t, RestoreFor(c, id, t[id])) == FinalRow(c, id, t[id]).Key()
  {
    hide Restore;
  }

  lemma TakenByUpdates(c: Codec, t: Table, front: seq<string>, x: string)
    requires WideKeys(t) && Restorable(c, t) && x in t && x !in front && forall id | id in front :: id in t
    ensures TakesNone(c, t, front, x) <==>
      Restore(c, x).Rewritten? ==> UpdatesTakeNone(t, RestoreUpdates(c, t, front), x)
  {
    RestoreUpdatesFrom(c, t, front);
    forall id | id in front
      ensures !(Restore(c, id).Rewritten? && Restore(c, x).Rewritten?) ==> FinalRow(c, id, t[id]).Key() != t[x].Key()
      ensures Restore(c, id).Rewritten? ==>
        RestoreFor(c, id, t[id]).current == id && NewKey(t, RestoreFor(c, id, t[id])) == FinalRow(c, id, t[id]).Key()
    {
      LastUnchanged(c, t, id, x);
      if Restore(c, id).Rewritten? {
        NewKeyIs(c, t, id);
      }
    }
    hide RestoreUpdates, Restore, FinalRow, RestoreFor, WideKeys, Restorable, NewKey;
  }

  lemma OrderlyStep(c: Codec, t: Table, front: seq<string>, x: string)
    requires WideKeys(t) && Restorable(c, t) && x in t && x !in front && forall id | id in front :: id in t
    requires Orderly(t, RestoreUpdates(c, t, front)) <==> InTurn(c, t, front)
    ensures Orderly(t, RestoreUpdates(c, t, front + [x])) <==> InTurn(c, t, front + [x])
  {
    hide *;
    TakenByUpdates(c, t, front, x);
    RestoreUpdatesStep(c, t, front + [x], |front|);
    assert (front + [x])[..|front| + 1] == front + [x] && (front + [x])[..|front|] == front;
    if Restore(c, x).Rewritten? {
      NewKeyIs(c, t, x);
    }
    OrderlyMore(t, RestoreUpdates(c, t, front), RestoreFor(c, x, t[x]));
    InTurnMore(c, t, front, x);
  }

  /** The rows that stay as they are can be left out of account. */
  lemma {:induction false} OrderlyInTurn(c: Codec, t: Table, order: seq<string>)
    requires WideKeys(t) && Restorable(c, t)
    requires (forall i, j | 0 <= i < j < |order| :: order[i] != order[j]) && forall id | id in order :: id in t
    ensures Orderly(t, RestoreUpdates(c, t, order)) <==> InTurn(c, t, order)
  {
    hide WideKeys, Restorable, FreeKey, FinalRow;
    if order != [] {
      var last := |order| - 1;
      assert order == order[..last] + [order[last]];
      OrderlyInTurn(c, t, order[..last]);
      OrderlyStep(c, t, order[..last], order[last]);
    }
  }

  /** Whether the updates that restore a table collide on the way. */
  lemma UpdatesInTurn(c: Codec, t: Table, order: seq<string>)
    requires Enumerates(order, t.Keys) && WideKeys(t) && Restorable(c, t)
    ensures Orderly(t, RestoreUpdates(c, t, order)) <==> InTurn(c, t, order)
    ensures SafeToRestore(c, t) ==> InTurn(c, t, order)
  {
    InKeys(order, t);
    OrderlyInTurn(c, t, order);
    if SafeToRestore(c, t) {
      hide Restore, FinalId, Orderly, RestoreUpdates;
      forall i, j | 0 <= i < j < |order| && order[i] in t && order[j] in t
        ensures FinalRow(c, order[i], t[order[i]]).Key() != t[order[j]].Key()
      {
        LastUnchanged(c, t, order[i], order[j]);
      }
    }
  }

  lemma RestoresFinalKeys(c: Codec, t: Table, us: seq<Update>)
    requires Restores(c, t, t.Keys, us) && Restorable(c, t)
    ensures FinalKeysDiffer(t, us)
  {
    forall i | 0 <= i < |us|
      ensures us[i].current in t && NewKey(t, us[i]) == FinalRow(c, us[i].current, t[us[i].current]).Key()
    {
      NewKeyIs(c, t, us[i].current);
    }
    forall i | 0 <= i < |us| ensures us[i].current in CurrentIds(us) {
      assert CurrentIds(us)[i] == us[i].current;
    }
    hide Restore, CurrentIds, NewKey, FinalId;
    assert forall id | id in t && id !in CurrentIds(us) :: FinalRow(c, id, t[id]) == t[id];
  }

  /** The identities given out to the rows in `seen`, all of which decode and differ. */
  ghost predicate Given(c: Codec, t: Table, seen: set<string>, ids: set<string>, keys: set<CacheKey>)
    requires seen <= t.Keys
  {
    && ids == (set id | id in seen :: FinalId(c, id))
    && keys == (set id | id in seen :: FinalRow(c, id, t[id]).Key())
    && (forall id | id in seen :: !Restore(c, id).Bad?)
    && (forall a, b | a in seen && b in seen && a != b ::
          FinalId(c, a) != FinalId(c, b) && FinalRow(c, a, t[a]).Key() != FinalRow(c, b, t[b]).Key())
  }

  lemma RestoresOneMore(c: Codec, t: Table, seen: set<string>, us: seq<Update>, id: string, us': seq<Update>)
    requires seen <= t.Keys && Restores(c, t, seen, us) && id in t && id !in seen && !Restore(c, id).Bad?
    requires us' == if Restore(c, id).Rewritten? then us + [RestoreFor(c, id, t[id])] else us
    ensures Restores(c, t, seen + {id}, us')
  {
    CurrentIdsGrow(us, us');
    hide Restore, FinalId, FinalRow, CurrentIds;
    if us' != us {
      assert us'[|us|].current == id;
    }
  }

  lemma RestoresWellFormed(c: Codec, t: Table, us: seq<Update>)
    requires Restores(c, t, t.Keys, us) && Restorable(c, t)
    ensures WellFormed(t, us)
  {
    assert forall i | 0 <= i < |us| :: us[i].target == FinalId(c, us[i].current);
    forall i | 0 <= i < |us| && us[i].target in t ensures us[i].target in CurrentIds(us) {
      CurrentIdsGrow(us, us);
      assert us[i].current in CurrentIds(us);
    }
  }

  lemma AppliedIsRestored(c: Codec, t: Table, us: seq<Update>, t': Table)
    requires Restores(c, t, t.Keys, us) && Applied(t, us, t')
    ensures IsRestored(c, t, t')
  {
    forall id | id in t ensures FinalId(c, id) in t' && t'[FinalId(c, id)] == FinalRow(c, id, t[id]) {
      if id in CurrentIds(us) {
        var i :| 0 <= i < |us| && CurrentIds(us)[i] == id;
        assert us[i] == RestoreFor(c, id, t[id]);
      }
    }
    forall p | p in t' ensures exists id | id in t :: FinalId(c, id) == p {
      if p in TargetIds(us) {
        var i :| 0 <= i < |us| && TargetIds(us)[i] == p;
        assert FinalId(c, us[i].current) == p;
      } else {
        assert FinalId(c, p) == p;
      }
    }
  }

  /** The checking loop before its i-th turn. */
  ghost predicate Checking(c: Codec, t: Table, order: seq<string>, i: nat,
                           seen: set<string>, us: seq<Update>, ids: set<string>, keys: set<CacheKey>)
  {
    SeenUpTo(order, t.Keys, i, seen) && Restores(c, t, seen, us) && Given(c, t, seen, ids, keys)
  }

  lemma CheckingStart(c: Codec, t: Table, order: seq<string>)
    requires Enumerates(order, t.Keys)
    ensures Checking(c, t, order, 0, {}, [], {}, {})
  {
    SeenNone(order, t.Keys);
  }

  lemma GivenOneMore(c: Codec, t: Table, seen: set<string>, ids: set<string>, keys: set<CacheKey>, id: string)
    requires seen <= t.Keys && Given(c, t, seen, ids, keys) && id in t && !Restore(c, id).Bad?
    requires FinalId(c, id) !in ids && FinalRow(c, id, t[id]).Key() !in keys
    ensures Given(c, t, seen + {id}, ids + {FinalId(c, id)}, keys + {FinalRow(c, id, t[id]).Key()})
  {
    hide Restore, FinalId, FinalRow;
  }

  lemma CheckingStep(c: Codec, t: Table, order: seq<string>, i: nat, seen: set<string>,
                     us: seq<Update>, ids: set<string>, keys: set<CacheKey>, us': seq<Update>)
    requires Enumerates(order, t.Keys) && i < |order| && Checking(c, t, order, i, seen, us, ids, keys)
    requires order[i] in t && !Restore(c, order[i]).Bad?
    requires FinalId(c, order[i]) !in ids && FinalRow(c, order[i], t[order[i]]).Key() !in keys
    requires us' == if Restore(c, order[i]).Rewritten? then us + [RestoreFor(c, order[i], t[order[i]])] else us
    ensures Checking(c, t, order, i + 1, seen + {order[i]}, us',
                     ids + {FinalId(c, order[i])}, keys + {FinalRow(c, order[i], t[order[i]]).Key()})
  {
    SeenOneMore(order, t.Keys, i, seen);
    hide Restores, Given, Enumerates, SeenUpTo, Restore, FinalId, FinalRow, RestoreFor;
    RestoresOneMore(c, t, seen, us, order[i], us');
    GivenOneMore(c, t, seen, ids, keys, order[i]);
  }

  /** Each of the loop's three reasons to raise rules out a restoration. */
  lemma CheckingRefused(c: Codec, t: Table, order: seq<string>, i: nat, seen: set<string>,
                        us: seq<Update>, ids: set<string>, keys: set<CacheKey>)
    requires Checking(c, t, order, i, seen, us, ids, keys) && i < |order| && order[i] in t
    requires Restore(c, order[i]).Bad? || FinalId(c, order[i]) in ids
      || FinalRow(c, order[i], t[order[i]]).Key() in keys
    ensures !Restorable(c, t)
  {
    hide Restore, FinalId, FinalRow;
    var id := order[i];
    if !Restore(c, id).Bad? {
      var a :| a in seen
        && (FinalId(c, a) == FinalId(c, id) || FinalRow(c, a, t[a]).Key() == FinalRow(c, id, t[id]).Key());
      assert a != id;
    }
  }

  lemma CheckingEnd(c: Codec, t: Table, order: seq<string>, seen: set<string>,
                    us: seq<Update>, ids: set<string>, keys: set<CacheKey>)
    requires Enumerates(order, t.Keys) && Checking(c, t, order, |order|, seen, us, ids, keys)
    ensures Restorable(c, t) && Restores(c, t, t.Keys, us)
  {
    hide Restore, FinalId, FinalRow;
    SeenAll(order, t.Keys, seen);
  }

  /** The loop of `_restore_cache_rows`: decode every id, collect the updates, reject duplicates. */
  method CheckRows(c: Codec, t: Table, order: seq<string>) returns (ok: bool, us: seq<Update>)
    requires Enumerates(order, t.Keys)
    ensures ok <==> Restorable(c, t)
    ensures ok ==> Restores(c, t, t.Keys, us) && us == RestoreUpdates(c, t, order)
  {
    us := [];
    var ids: set<string>, keys: set<CacheKey> := {}, {};
    ghost var seen: set<string> := {};
    CheckingStart(c, t, order);
    InKeys(order, t);
    assert RestoreUpdates(c, t, order[..0]) == [];
    hide *;
    for i := 0 to |order|
      invariant Checking(c, t, order, i, seen, us, ids, keys) && us == RestoreUpdates(c, t, order[..i])
    {
      var id, us' := order[i], us;
      var id', key := FinalId(c, id), FinalRow(c, id, t[id]).Key();
      if Restore(c, id).Bad? || id' in ids || key in keys {
        CheckingRefused(c, t, order, i, seen, us, ids, keys);
        return false, us;
      }
      if Restore(c, id).Rewritten? {
        us' := us + [RestoreFor(c, id, t[id])];
      }
      CheckingStep(c, t, order, i, seen, us, ids, keys, us');
      RestoreUpdatesStep(c, t, order, i);
      us, ids, keys, seen := us', ids + {id'}, keys + {key}, seen + {id};
    }
    CheckingEnd(c, t, order, seen, us, ids, keys);
    assert order[..|order|] == order;
    ok := true;
  }

  /** `_restore_cache_rows`: every check comes before the first UPDATE. */
  method RestoreRows(c: Codec, store: CacheStore, order: seq<string>) returns (outcome: Outcome)
    requires WideKeys(store.rows) && Enumerates(order, store.rows.Keys)
    modifies store
    ensures WideKeys(store.rows)
    ensures outcome == Refused <==> !Restorable(c, old(store.rows))
    ensures outcome == Refused ==> store.rows == old(store.rows)
    ensures (exists id | id in old(store.rows) :: Unreadable(c, id)) ==> outcome == Refused
    ensures outcome == Done ==> IsRestored(c, old(store.rows), store.rows)
    ensures outcome == Done <==> Restorable(c, old(store.rows)) && InTurn(c, old(store.rows), order)
    ensures Restorable(c, old(store.rows)) && SafeToRestore(c, old(store.rows)) ==> outcome == Done
  {
    hide *;
    var t := store.rows;
    var ok, us := CheckRows(c, t, order);
    forall id | id in t && Unreadable(c, id) ensures !ok {
      UnreadableIsRefused(c, t, id);
    }
    if !ok {
      return Refused;
    }
    RestoresWellFormed(c, t, us);
    RestoresFinalKeys(c, t, us);
    UpdatesInTurn(c, t, order);
    ok := store.ApplyUpdates(c, us);
    if ok {
      AppliedIsRestored(c, t, us, store.rows);
    }
    return if ok then Done else IntegrityError;
  }

  // ---------------------------------------------------------------- the round trip

  /** The id under which row `id` of `t` is found after the downgrade, and what becomes of it. */
  lemma ReturnedRow(c: Codec, t: Table, names: Names, t': Table, id: string)
    requires c.Faithful() && names.Keys == t.Keys && Naming(SlotsOf(t), names) && Prepared(c, t, names, t') && id in t
    ensures var p := PreparedId(c, id, t[id]);
      && p in ResetProvider(t')
      && (!Enveloped(id, t[id]) ==>
           FinalId(c, p) == id && FinalRow(c, p, ResetProvider(t')[p]) == t[id] && !Restore(c, p).Bad?)
      && (Enveloped(id, t[id]) ==> p == id && (Restore(c, p).Bad? || |FinalId(c, p)| < |id|))
      && (Restore(c, p).Rewritten? && !Enveloped(id, t[id]) ==> t[id].provider != LEGACY_PROVIDER)
  {
    hide Naming, SlotsOf;
    if t[id].provider != LEGACY_PROVIDER {
      RestorePrepared(c, id, t[id]);
    } else {
      SlotIs(t, id);
      LegacyKeepsName(SlotsOf(t), names, id);
      if Restore(c, id).Rewritten? {
        RestoreShrinks(c, id);
      }
    }
  }

  /** Row `p` of the table the upgrade finds decodes to a row of `t`. */
  ghost predicate Decodes(c: Codec, t: Table, back: Table, p: string) {
    && p in back && FinalId(c, p) in t && p == PreparedId(c, FinalId(c, p), t[FinalId(c, p)])
    && !Restore(c, p).Bad? && FinalRow(c, p, back[p]) == t[FinalId(c, p)] && back[p].provider == LEGACY_PROVIDER
    && (Restore(c, p).Rewritten? ==> t[FinalId(c, p)].provider != LEGACY_PROVIDER)
  }

  lemma EachDecodes(c: Codec, t: Table, names: Names, t': Table, id: string)
    requires c.Faithful() && names.Keys == t.Keys && Naming(SlotsOf(t), names)
    requires Prepared(c, t, names, t') && NoLegacyEnvelope(t) && id in t
    ensures Decodes(c, t, ResetProvider(t'), PreparedId(c, id, t[id])) && FinalId(c, PreparedId(c, id, t[id])) == id
  {
    hide Naming, SlotsOf, Restore, FinalId, FinalRow, PreparedId, Codec.Faithful, Enveloped;
    ReturnedRow(c, t, names, t', id);
  }

  lemma PreparedFrom(c: Codec, t: Table, names: Names, t': Table, p: string) returns (id: string)
    requires names.Keys == t.Keys && Prepared(c, t, names, t') && p in t'
    ensures id in t && PreparedId(c, id, t[id]) == p
  {
    hide PreparedId;
    id :| id in t && PreparedId(c, id, t[id]) == p;
  }

  lemma DecodesIsIn(c: Codec, t: Table, back: Table, p: string)
    requires Decodes(c, t, back, p)
    ensures p in back
  {
  }

  lemma DecodedIsRestorable(c: Codec, t: Table, back: Table)
    requires WideKeys(t) && forall p | p in back :: Decodes(c, t, back, p)
    ensures Restorable(c, back) && SafeToRestore(c, back)
  {
    hide Restore, FinalId, FinalRow, PreparedId;
  }

  lemma DecodedIsOriginal(c: Codec, t: Table, back: Table, r: Table)
    requires forall p | p in back :: Decodes(c, t, back, p)
    requires forall id | id in t :: PreparedId(c, id, t[id]) in back && FinalId(c, PreparedId(c, id, t[id])) == id
    requires IsRestored(c, back, r)
    ensures r == t
  {
    hide Restore, FinalId, FinalRow, PreparedId;
    forall id | id in t ensures id in r && r[id] == t[id] {
      assert Decodes(c, t, back, PreparedId(c, id, t[id]));
    }
    forall id | id in r ensures id in t {
      var p :| p in back && FinalId(c, p) == id;
      assert Decodes(c, t, back, p);
    }
  }

  lemma ResetKeys(t: Table)
    ensures ResetProvider(t).Keys == t.Keys
  {
  }

  /** Without enveloped legacy rows, the upgrade can only give back the original table. */
  lemma CleanRoundTrip(c: Codec, t: Table, names: Names, t': Table)
    requires c.Faithful() && WideKeys(t) && names.Keys == t.Keys && Naming(SlotsOf(t), names)
    requires Prepared(c, t, names, t') && NoLegacyEnvelope(t)
    ensures Restorable(c, ResetProvider(t')) && SafeToRestore(c, ResetProvider(t'))
    ensures forall r | IsRestored(c, ResetProvider(t'), r) :: r == t
  {
    hide *;
    var back := ResetProvider(t');
    ResetKeys(t');
    forall p | p in back ensures Decodes(c, t, back, p) {
      var id := PreparedFrom(c, t, names, t', p);
      EachDecodes(c, t, names, t', id);
    }
    DecodedIsRestorable(c, t, back);
    forall id | id in t ensures PreparedId(c, id, t[id]) in back && FinalId(c, PreparedId(c, id, t[id])) == id {
      EachDecodes(c, t, names, t', id);
      DecodesIsIn(c, t, back, PreparedId(c, id, t[id]));
    }
    forall r | IsRestored(c, back, r) ensures r == t {
      DecodedIsOriginal(c, t, back, r);
    }
  }

  /** A nonempty set of ids has a longest member. */
  lemma {:induction false} Longest(ids: set<string>) returns (longest: string)
    requires ids != {}
    ensures longest in ids && forall id | id in ids :: |id| <= |longest|
    decreases |ids|
  {
    longest :| longest in ids;
    var rest := ids - {longest};
    if rest != {} {
      var other := Longest(rest);
      if |other| > |longest| {
        longest := other;
      }
    }
  }

  lemma LongestEnveloped(t: Table) returns (x: string)
    requires !NoLegacyEnvelope(t)
    ensures x in t && Enveloped(x, t[x]) && forall id | id in t && Enveloped(id, t[id]) :: |id| <= |x|
  {
    hide Enveloped;
    var enveloped := set id | id in t && Enveloped(id, t[id]);
    var some :| some in t && Enveloped(some, t[some]);
    assert some in enveloped;
    x := Longest(enveloped);
  }

  /** No row can come back under an enveloped legacy id that no longer one could shrink to. */
  lemma NeverReturns(c: Codec, t: Table, names: Names, t': Table, x: string, p: string)
    requires c.Faithful() && names.Keys == t.Keys && Naming(SlotsOf(t), names) && Prepared(c, t, names, t')
    requires x in t && Enveloped(x, t[x]) && forall id | id in t && Enveloped(id, t[id]) :: |id| <= |x|
    requires p in t' && !Restore(c, p).Bad?
    ensures FinalId(c, p) != x
  {
    hide Naming, SlotsOf, Restore, FinalId, PreparedId, Codec.Faithful, Enveloped;
    var id :| id in t && PreparedId(c, id, t[id]) == p;
    ReturnedRow(c, t, names, t', id);
  }

  /** The longest enveloped legacy id is missing from every table the upgrade can produce. */
  lemma EnvelopedRoundTrip(c: Codec, t: Table, names: Names, t': Table, r: Table)
    requires c.Faithful() && names.Keys == t.Keys && Naming(SlotsOf(t), names)
    requires Prepared(c, t, names, t') && !NoLegacyEnvelope(t)
    requires Restorable(c, ResetProvider(t')) && IsRestored(c, ResetProvider(t'), r)
    ensures r != t
  {
    hide Naming, SlotsOf, Restore, FinalId, FinalRow, Prepared, NoLegacyEnvelope, Codec.Faithful, Enveloped;
    var x := LongestEnveloped(t);
    if x in r {
      var p :| p in ResetProvider(t') && FinalId(c, p) == x;
      NeverReturns(c, t, names, t', x, p);
    }
  }

  /** Downgrade then upgrade. Both succeed and the table comes back exactly if and only if no legacy
      row already carried the envelope prefix in its id and no row had the id of another's envelope. */
  method DowngradeThenUpgrade(c: Codec, store: CacheStore, order: seq<string>) returns (outcome: Outcome)
    requires WideKeys(store.rows) && c.Faithful() && Enumerates(order, store.rows.Keys)
    modifies store
    ensures outcome == Done && store.rows == old(store.rows)
       <==> NoLegacyEnvelope(old(store.rows)) && !Collision(c, old(store.rows))
  {
    var t := store.rows;
    hide *;
    ghost var names;
    outcome, names := PrepareRows(c, store, order);
    if outcome != Done {
      return;
    }
    ghost var t' := store.rows;
    ResetKeepsKeys(t');
    store.rows := ResetProvider(store.rows);
    var order' := SelectIds(store.rows);
    outcome := RestoreRows(c, store, order');
    if NoLegacyEnvelope(t) {
      CleanRoundTrip(c, t, names, t');
    } else if outcome == Done {
      EnvelopedRoundTrip(c, t, names, t', store.rows);
    }
  }

  lemma ResetKeepsKeys(t: Table)
    requires NarrowKeys(t)
    ensures WideKeys(ResetProvider(t))
  {
  }

  /** SELECT id: some enumeration of the primary keys. */
  method SelectIds(t: Table) returns (order: seq<string>)
    ensures Enumerates(order, t.Keys)
  {
    order := [];
    var rest := t.Keys;
    while rest != {}
      invariant rest <= t.Keys
      invariant Enumerates(order, t.Keys - rest)
      decreases |rest|
    {
      var id :| id in rest;
      order, rest := order + [id], rest - {id};
    }
    assert t.Keys - rest == t.Keys;
  }
}
