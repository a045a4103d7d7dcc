/** Migration 0018 over `document_index_versions`: downgrade hides the provider column in
    envelopes and fresh build keys, upgrade restores it. */
module VersionMigration {
  import opened Prelude
  import opened EnvelopeCodec
  import opened CompatibilityNames

  /** The columns the migration reads or writes; a table maps primary keys to rows. */
  datatype VersionRow = VersionRow(document: string, buildKey: string, provider: string, errorMessage: Option<string>)
  datatype NarrowRow = NarrowRow(document: string, buildKey: string, errorMessage: Option<string>)
  type Table = map<string, VersionRow>
  type NarrowTable = map<string, NarrowRow>

  /** Unique key (document_id, build_key, embedding_provider). */
  predicate WideKeys(t: Table) {
    forall a, b | a in t && b in t && a != b ::
      t[a].document != t[b].document || t[a].buildKey != t[b].buildKey || t[a].provider != t[b].provider
  }

  /** Unique key (document_id, build_key) of the older schema. */
  predicate NarrowKeys(t: NarrowTable) {
    forall a, b | a in t && b in t && a != b :: t[a].document != t[b].document || t[a].buildKey != t[b].buildKey
  }

  function DropProvider(t: Table): NarrowTable {
    map id | id in t :: NarrowRow(t[id].document, t[id].buildKey, t[id].errorMessage)
  }

  /** The new column starts out with its server default. */
  function AddProvider(t: NarrowTable): Table {
    map id | id in t :: VersionRow(t[id].document, t[id].buildKey, LEGACY_PROVIDER, t[id].errorMessage)
  }

  /** A step finishes, raises RuntimeError, or an UPDATE violates a unique key. */
  datatype Outcome = Done | Refused | IntegrityError

  function Identity(id: string, row: VersionRow): string {
    row.document + "\0" + id + "\0" + row.buildKey + "\0" + row.provider
  }

  function SlotsOf(t: Table): Slots {
    map id | id in t ::
      Slot(Group(OfDocument(t[id].document), t[id].buildKey), t[id].provider == LEGACY_PROVIDER, Identity(id, t[id]))
  }

  lemma SlotIs(t: Table, id: string)
    requires id in t
    ensures id in SlotsOf(t) && SlotsOf(t)[id].group == Group(OfDocument(t[id].document), t[id].buildKey)
    ensures SlotsOf(t)[id].legacy <==> t[id].provider == LEGACY_PROVIDER
  {
    hide Identity;
  }

  ghost predicate SameGroup(t: Table, a: string, b: string) {
    a in t && b in t && t[a].document == t[b].document && t[a].buildKey == t[b].buildKey
  }

  /** The row that keeps its build key: a legacy row, or in a group without one the row with the smallest id. */
  ghost predicate LeadsGroup(t: Table, id: string)
    requires id in t
  {
    t[id].provider == LEGACY_PROVIDER ||
    forall o | o != id && SameGroup(t, id, o) :: t[o].provider != LEGACY_PROVIDER && Less(id, o)
  }

  lemma LeadsIs(t: Table, id: string)
    requires id in t
    ensures id in SlotsOf(t) && (Leads(SlotsOf(t), id) <==> LeadsGroup(t, id))
  {
    hide SlotsOf;
    SlotIs(t, id);
    forall o ensures o in SlotsOf(t) <==> o in t {
      SlotKeys(t);
    }
    forall o | o in t
      ensures SlotsOf(t)[o].group == SlotsOf(t)[id].group <==> SameGroup(t, id, o)
      ensures SlotsOf(t)[o].legacy <==> t[o].provider == LEGACY_PROVIDER
    {
      SlotIs(t, o);
    }
  }

  lemma SlotKeys(t: Table)
    ensures SlotsOf(t).Keys == t.Keys
  {
    hide Identity;
  }

  /** The rows of a group are listed by id, as the SELECT does. */
  ghost predicate ListedById(t: Table, order: seq<string>) {
    forall i, j | 0 <= i < j < |order| && SameGroup(t, order[i], order[j]) :: Less(order[i], order[j])
  }

  /** Row `i` of the SELECT is legacy, or neither a legacy row nor an earlier row shares its group. */
  ghost predicate Earliest(t: Table, order: seq<string>, i: nat)
    requires i < |order| && order[i] in t
  {
    t[order[i]].provider == LEGACY_PROVIDER ||
    forall j | 0 <= j < |order| && j != i && SameGroup(t, order[i], order[j]) ::
      t[order[j]].provider != LEGACY_PROVIDER && i < j
  }

  lemma EarliestLeads(t: Table, order: seq<string>, i: nat)
    requires Enumerates(order, t.Keys) && ListedById(t, order) && i < |order| && order[i] in t
    ensures LeadsGroup(t, order[i]) <==> Earliest(t, order, i)
  {
    var id := order[i];
    if Earliest(t, order, i) && t[id].provider != LEGACY_PROVIDER {
      forall o | o != id && SameGroup(t, id, o) ensures t[o].provider != LEGACY_PROVIDER && Less(id, o) {
        assert o in t.Keys && o in order;
        var j :| 0 <= j < |order| && order[j] == o;
      }
    }
    if LeadsGroup(t, id) && t[id].provider != LEGACY_PROVIDER {
      forall j | 0 <= j < |order| && j != i && SameGroup(t, id, order[j])
        ensures t[order[j]].provider != LEGACY_PROVIDER && i < j
      {
        LessIsTotal(id, order[j]);
        assert SameGroup(t, order[j], id);
      }
    }
  }

  function EnvelopeOf(c: Codec, row: VersionRow): string {
    Encode(c, VERSION_ENVELOPE_PREFIX,
           Payload(Num(1), Null, Str(row.buildKey), Str(row.provider), Null,
                   if row.errorMessage.Some? then Str(row.errorMessage.value) else Null))
  }

  /** The row a downgrade leaves, given its name in the older schema. */
  function PreparedRow(c: Codec, row: VersionRow, buildKey: string): VersionRow {
    if row.provider == LEGACY_PROVIDER then row.(buildKey := buildKey)
    else row.(buildKey := buildKey, errorMessage := Some(EnvelopeOf(c, row)))
  }

  function PreparedTable(c: Codec, t: Table, names: Names): Table
    requires names.Keys == t.Keys
  {
    map id | id in t :: PreparedRow(c, t[id], names[id])
  }

  lemma PreparedKeys(c: Codec, t: Table, names: Names)
    requires names.Keys == t.Keys
    ensures PreparedTable(c, t, names).Keys == t.Keys
  {
  }

  /** `t'` is a prepared form of `t`. */
  ghost predicate Prepared(c: Codec, t: Table, t': Table) {
    exists names: Names | names.Keys == t.Keys :: Naming(SlotsOf(t), names) && t' == PreparedTable(c, t, names)
  }

  /** What the upgrade makes of one row. */
  datatype Restoration = Bad | Same | Rewritten(row: VersionRow)

  function Restore(c: Codec, row: VersionRow): Restoration {
    match Decode(c, VERSION_ENVELOPE_PREFIX, row.errorMessage)
    case NotEnvelope => Same
    case Malformed => Bad
    case Object(p) =>
      if !p.provider.Str? || !p.buildKey.Str? then Bad
      else match p.errorMessage
        case Null => Rewritten(VersionRow(row.document, p.buildKey.s, p.provider.s, None))
        case Str(e) => Rewritten(VersionRow(row.document, p.buildKey.s, p.provider.s, Some(e)))
        case _ => Bad
  }

  /** The message carries the prefix, but what follows is not an object of format 1 with a provider
      and a build key and, if it has an error message at all, a text. */
  ghost predicate Unreadable(c: Codec, row: VersionRow) {
    row.errorMessage.Some? && VERSION_ENVELOPE_PREFIX <= row.errorMessage.value &&
    match c.unpack(row.errorMessage.value[|VERSION_ENVELOPE_PREFIX|..])
    case None => true
    case Some(p) =>
      || p.format != Num(1) || !p.buildKey.Str? || !p.provider.Str?
      || p.errorMessage.Num? || p.errorMessage.Other?
  }

  /** One unreadable message is enough for the upgrade to refuse the table. */
  lemma UnreadableIsRefused(c: Codec, t: Table, id: string)
    requires id in t && Unreadable(c, t[id])
    ensures !Restorable(c, t)
  {
    hide WideKeys, RestoredTable;
    assert Restore(c, t[id]).Bad?;
  }

  function Restored(c: Codec, row: VersionRow): VersionRow {
    var r := Restore(c, row);
    if r.Rewritten? then r.row else row
  }

  function RestoredTable(c: Codec, t: Table): Table {
    map id | id in t :: Restored(c, t[id])
  }

  /** The checks of `_restore_version_rows` that come before its first UPDATE. */
  ghost predicate Restorable(c: Codec, t: Table) {
    (forall id | id in t :: !Restore(c, t[id]).Bad?) && WideKeys(RestoredTable(c, t))
  }

  /** After the column was added every row is a legacy row and every envelope names a real provider. */
  ghost predicate SafeToRestore(c: Codec, t: Table) {
    forall id | id in t ::
      t[id].provider == LEGACY_PROVIDER
        && (Restore(c, t[id]).Rewritten? ==> Restored(c, t[id]).provider != LEGACY_PROVIDER)
  }

  /** A table some of whose rows are already rewritten. */
  function Mixed(t: Table, t': Table, done: set<string>): Table
    requires t.Keys == t'.Keys
  {
    map id | id in t :: if id in done then t'[id] else t[id]
  }

  lemma MixedStep(t: Table, t': Table, done: set<string>, id: string)
    requires t.Keys == t'.Keys && id in t
    ensures Mixed(t, t', done)[id := t'[id]] == Mixed(t, t', done + {id})
  {
  }

  /** Two rows of one document, each with its old or its new build key. */
  lemma PreparedPair(c: Codec, x: VersionRow, y: VersionRow, nameX: string, nameY: string, x': VersionRow,
                     y': VersionRow)
    requires x.buildKey != y.buildKey || x.provider != y.provider
    requires nameX != nameY
    requires nameX == x.buildKey || nameX != y.buildKey
    requires nameY == y.buildKey || nameY != x.buildKey
    requires x' in {x, PreparedRow(c, x, nameX)} && y' in {y, PreparedRow(c, y, nameY)}
    ensures x'.buildKey != y'.buildKey || x'.provider != y'.provider
  {
    hide EnvelopeOf;
  }

  lemma PreparedMixRow(c: Codec, t: Table, names: Names, done: set<string>, id: string)
    requires names.Keys == t.Keys && id in t
    ensures PreparedTable(c, t, names).Keys == t.Keys
    ensures var m := Mixed(t, PreparedTable(c, t, names), done);
      id in m && m[id] in {t[id], PreparedRow(c, t[id], names[id])} && m[id].document == t[id].document
  {
    hide EnvelopeOf;
  }

  lemma PreparedMixKeys(c: Codec, t: Table, names: Names, done: set<string>)
    requires WideKeys(t) && names.Keys == t.Keys && Naming(SlotsOf(t), names)
    ensures PreparedTable(c, t, names).Keys == t.Keys && WideKeys(Mixed(t, PreparedTable(c, t, names), done))
  {
    hide Naming, SlotsOf, EnvelopeOf, PreparedRow, PreparedTable;
    PreparedKeys(c, t, names);
    var m := Mixed(t, PreparedTable(c, t, names), done);
    forall a, b | a in m && b in m && a != b && m[a].document == m[b].document
      ensures m[a].buildKey != m[b].buildKey || m[a].provider != m[b].provider
    {
      PreparedMixRow(c, t, names, done, a);
      PreparedMixRow(c, t, names, done, b);
      SlotIs(t, a);
      SlotIs(t, b);
      NamePair(SlotsOf(t), names, a, b);
      NamePair(SlotsOf(t), names, b, a);
      PreparedPair(c, t[a], t[b], names[a], names[b], m[a], m[b]);
    }
  }

  /** The unique key leaves at most one legacy row in a group. */
  lemma NoLegacyClash(t: Table)
    requires WideKeys(t)
    ensures !LegacyClash(SlotsOf(t))
  {
    hide Identity;
  }

  /** After preparation the provider column can go: the narrower key is unique. */
  lemma PreparedIsNarrow(c: Codec, t: Table, names: Names)
    requires names.Keys == t.Keys && Naming(SlotsOf(t), names)
    ensures NarrowKeys(DropProvider(PreparedTable(c, t, names)))
  {
    hide Naming, SlotsOf, EnvelopeOf;
    var n := DropProvider(PreparedTable(c, t, names));
    assert n.Keys == t.Keys && forall a | a in n :: n[a].document == t[a].document && n[a].buildKey == names[a];
    forall a, b | a in n && b in n && a != b && n[a].document == n[b].document
      ensures n[a].buildKey != n[b].buildKey
    {
      SlotIs(t, a);
      SlotIs(t, b);
      NamePair(SlotsOf(t), names, a, b);
    }
  }

  /** `k` alone answers to the document and build key of row `id` in the prepared table. */
  ghost predicate KeeperOf(t: Table, names: Names, id: string, k: string)
    requires names.Keys == t.Keys && id in t
  {
    && k in t && t[k].document == t[id].document && t[k].buildKey == t[id].buildKey && names[k] == t[id].buildKey
    && (t[id].provider == LEGACY_PROVIDER ==> k == id)
    && (forall o | o in t && o != k && t[o].document == t[id].document :: names[o] != t[id].buildKey)
  }

  /** Of the rows that shared (document, build key), exactly one still answers to it, a legacy row if there is one. */
  lemma OneKeeperPerGroup(t: Table, names: Names, id: string)
    requires names.Keys == t.Keys && Naming(SlotsOf(t), names) && id in t
    ensures exists k :: KeeperOf(t, names, id, k)
  {
    hide Identity;
    var slots := SlotsOf(t);
    assert KeptBy(slots, names, slots[id].group);
    var k :| k in names && k in slots && slots[k].group == slots[id].group && names[k] == slots[id].group.name;
    forall o | o in t && o != k && t[o].document == t[id].document ensures names[o] != t[id].buildKey {
      SlotIs(t, o);
      SlotIs(t, k);
      NamePair(SlotsOf(t), names, o, k);
    }
    if t[id].provider == LEGACY_PROVIDER {
      SlotIs(t, id);
      LegacyKeepsName(SlotsOf(t), names, id);
    }
    assert KeeperOf(t, names, id, k);
  }

  /** A legacy row that would be mistaken for a downgraded one. */
  predicate Enveloped(row: VersionRow) {
    row.provider == LEGACY_PROVIDER && row.errorMessage.Some? && VERSION_ENVELOPE_PREFIX <= row.errorMessage.value
  }

  /** No legacy row's error message already looks like an envelope. */
  ghost predicate NoLegacyEnvelope(t: Table) {
    forall id | id in t :: !Enveloped(t[id])
  }

  /** Round trip of one row: restoring what the downgrade stored gives the row back, unless a
      legacy row already carried the prefix; then it comes back changed or not at all. */
  lemma RowRoundTrip(c: Codec, row: VersionRow, buildKey: string)
    requires c.Faithful() && (row.provider == LEGACY_PROVIDER ==> buildKey == row.buildKey)
    ensures var p := PreparedRow(c, row, buildKey).(provider := LEGACY_PROVIDER);
      && (row.provider != LEGACY_PROVIDER ==> Restore(c, p) == Rewritten(row))
      && (row.provider == LEGACY_PROVIDER && !Enveloped(row) ==> Restore(c, p) == Same && p == row)
      && (Enveloped(row) ==> Restore(c, p).Bad? || Restored(c, p) != row)
  {
    if row.provider != LEGACY_PROVIDER {
      DecodeEncode(c, VERSION_ENVELOPE_PREFIX,
                   Payload(Num(1), Null, Str(row.buildKey), Str(row.provider), Null,
                           if row.errorMessage.Some? then Str(row.errorMessage.value) else Null));
    } else if Enveloped(row) && Decode(c, VERSION_ENVELOPE_PREFIX, row.errorMessage).Object? {
      DecodeShrinks(c, VERSION_ENVELOPE_PREFIX, row.errorMessage.value);
    }
  }

  /** The table as the upgrade finds it when nothing happened since the downgrade. */
  function Returned(c: Codec, t: Table, names: Names): Table
    requires names.Keys == t.Keys
  {
    AddProvider(DropProvider(PreparedTable(c, t, names)))
  }

  lemma ReturnedIs(c: Codec, t: Table, names: Names)
    requires names.Keys == t.Keys
    ensures Returned(c, t, names) == AddProvider(DropProvider(PreparedTable(c, t, names)))
  {
  }

  /** The naming behind a prepared table. */
  ghost function NamesOf(c: Codec, t: Table, t': Table): (names: Names)
    requires Prepared(c, t, t')
    ensures names.Keys == t.Keys && Naming(SlotsOf(t), names) && t' == PreparedTable(c, t, names)
  {
    var names: Names :| names.Keys == t.Keys && Naming(SlotsOf(t), names) && t' == PreparedTable(c, t, names);
    names
  }

  lemma PreparedIsTotal(c: Codec, t: Table, t': Table)
    requires Prepared(c, t, t')
    ensures t'.Keys == t.Keys
  {
  }

  /** `p` is a legacy row that the upgrade turns into `row`. */
  ghost predicate ReturnsTo(c: Codec, p: VersionRow, row: VersionRow) {
    && p.provider == LEGACY_PROVIDER && !Restore(c, p).Bad? && Restored(c, p) == row
    && (Restore(c, p).Rewritten? ==> row.provider != LEGACY_PROVIDER)
  }

  lemma ReturnedRow(c: Codec, t: Table, names: Names, id: string)
    requires c.Faithful() && names.Keys == t.Keys && Naming(SlotsOf(t), names) && id in t
    ensures !Enveloped(t[id]) ==> ReturnsTo(c, Returned(c, t, names)[id], t[id])
    ensures Enveloped(t[id]) ==>
      Restore(c, Returned(c, t, names)[id]).Bad? || Restored(c, Returned(c, t, names)[id]) != t[id]
  {
    if t[id].provider == LEGACY_PROVIDER {
      SlotIs(t, id);
      LegacyKeepsName(SlotsOf(t), names, id);
    }
    RowRoundTrip(c, t[id], names[id]);
  }

  lemma ReturnedKeys(c: Codec, t: Table, names: Names)
    requires names.Keys == t.Keys && Naming(SlotsOf(t), names)
    ensures Returned(c, t, names).Keys == t.Keys && WideKeys(Returned(c, t, names))
  {
    PreparedIsNarrow(c, t, names);
    hide Naming, SlotsOf, PreparedTable;
  }

  lemma AllReturn(c: Codec, back: Table, t: Table)
    requires back.Keys == t.Keys && WideKeys(t)
    requires forall id | id in t :: ReturnsTo(c, back[id], t[id])
    ensures Restorable(c, back) && SafeToRestore(c, back) && RestoredTable(c, back) == t
  {
    hide Restore, Restored, WideKeys;
    assert RestoredTable(c, back) == t;
  }

  lemma CleanRoundTrip(c: Codec, t: Table, names: Names)
    requires c.Faithful() && WideKeys(t) && names.Keys == t.Keys && Naming(SlotsOf(t), names)
    requires NoLegacyEnvelope(t)
    ensures Restorable(c, Returned(c, t, names)) && SafeToRestore(c, Returned(c, t, names))
    ensures RestoredTable(c, Returned(c, t, names)) == t
  {
    hide Naming, SlotsOf, Returned, Enveloped, ReturnsTo, Restorable, SafeToRestore, RestoredTable, WideKeys,
      Codec.Faithful;
    ReturnedKeys(c, t, names);
    forall id | id in t ensures ReturnsTo(c, Returned(c, t, names)[id], t[id]) {
      ReturnedRow(c, t, names, id);
    }
    AllReturn(c, Returned(c, t, names), t);
  }

  lemma EnvelopedRoundTrip(c: Codec, t: Table, names: Names, id: string)
    requires c.Faithful() && names.Keys == t.Keys && Naming(SlotsOf(t), names)
    requires id in t && Enveloped(t[id])
    ensures Restorable(c, Returned(c, t, names)) ==> RestoredTable(c, Returned(c, t, names)) != t
  {
    ReturnedKeys(c, t, names);
    ReturnedRow(c, t, names, id);
    hide Naming, SlotsOf, Returned, Restore, Enveloped, Codec.Faithful, WideKeys;
    var back := Returned(c, t, names);
    assert id in back && (Restore(c, back[id]).Bad? || RestoredTable(c, back)[id] != t[id]);
  }

  /** The migration's law: downgrade then upgrade returns exactly the original table if and only if
      no legacy row already carries the envelope prefix; in that case no UPDATE can fail either. */
  lemma TableRoundTrip(c: Codec, t: Table, names: Names)
    requires c.Faithful() && WideKeys(t) && names.Keys == t.Keys && Naming(SlotsOf(t), names)
    ensures Restorable(c, Returned(c, t, names)) && RestoredTable(c, Returned(c, t, names)) == t <==>
      NoLegacyEnvelope(t)
    ensures NoLegacyEnvelope(t) ==> SafeToRestore(c, Returned(c, t, names))
  {
    hide Naming, SlotsOf, Returned, Restorable, SafeToRestore, RestoredTable, WideKeys, Enveloped, Codec.Faithful;
    if NoLegacyEnvelope(t) {
      CleanRoundTrip(c, t, names);
    } else {
      var id :| id in t && Enveloped(t[id]);
      EnvelopedRoundTrip(c, t, names, id);
    }
  }

  /** The unique key of a row. */
  function Key(row: VersionRow): (string, string, string) {
    (row.document, row.buildKey, row.provider)
  }

  /** The key a row has after the upgrade. */
  function FinalKey(c: Codec, row: VersionRow): (string, string, string) {
    Key(Restored(c, row))
  }

  /** No update gives a row the key that a row updated later still has. */
  ghost predicate Orderly(t: Table, t': Table, ids: seq<string>) {
    forall i, j | 0 <= i < j < |ids| && ids[i] in t' && ids[j] in t :: Key(t'[ids[i]]) != Key(t[ids[j]])
  }

  predicate AllDistinct(ids: seq<string>) {
    forall i, j | 0 <= i < j < |ids| :: ids[i] != ids[j]
  }

  /** A preparation never gives a row the key that another one has before or after it. */
  lemma PreparedOrderly(c: Codec, t: Table, names: Names, ids: seq<string>)
    requires WideKeys(t) && names.Keys == t.Keys && Naming(SlotsOf(t), names) && AllDistinct(ids)
    ensures WideKeys(PreparedTable(c, t, names)) && Orderly(t, PreparedTable(c, t, names), ids)
  {
    hide Naming, SlotsOf, PreparedTable;
    var t' := PreparedTable(c, t, names);
    PreparedMixKeys(c, t, names, t.Keys);
    assert Mixed(t, t', t.Keys) == t';
    forall i, j | 0 <= i < j < |ids| && ids[i] in t' && ids[j] in t ensures Key(t'[ids[i]]) != Key(t[ids[j]]) {
      PreparedMixKeys(c, t, names, {ids[i]});
      assert Mixed(t, t', {ids[i]})[ids[i]] == t'[ids[i]] && Mixed(t, t', {ids[i]})[ids[j]] == t[ids[j]];
    }
  }

  /** The updates a preparation collects: the rows it changes. */
  method ChangedRows(c: Codec, t: Table, names: Names, order: seq<string>) returns (updates: seq<string>)
    requires names.Keys == t.Keys && Enumerates(order, t.Keys)
    ensures forall i | 0 <= i < |updates| :: updates[i] in t
    ensures forall id | id in t && id !in updates :: PreparedTable(c, t, names)[id] == t[id]
    ensures AllDistinct(updates)
  {
    hide EnvelopeOf;
    updates := [];
    for i := 0 to |order|
      invariant forall k | 0 <= k < |updates| :: updates[k] in t && updates[k] in order[..i]
      invariant AllDistinct(updates)
      invariant forall k | 0 <= k < i && order[k] in t ::
        order[k] in updates || PreparedRow(c, t[order[k]], names[order[k]]) == t[order[k]]
    {
      assert order[i] in t.Keys && order[i] !in order[..i];
      var row := t[order[i]];
      var prepared := PreparedRow(c, row, names[order[i]]);
      if prepared.buildKey != row.buildKey || prepared.errorMessage != row.errorMessage {
        updates := updates + [order[i]];
      }
    }
    assert forall id | id in t :: id in order;
  }

  /** The rows in `seen` decode and end up under different keys. */
  ghost predicate Checked(c: Codec, t: Table, seen: seq<string>, updates: seq<string>,
                          finalKeys: set<(string, string, string)>)
  {
    && (forall k | 0 <= k < |seen| :: seen[k] in t && !Restore(c, t[seen[k]]).Bad?)
    && (forall k | 0 <= k < |updates| :: updates[k] in t)
    && (forall k | 0 <= k < |seen| && seen[k] in t :: seen[k] in updates || Restored(c, t[seen[k]]) == t[seen[k]])
    && (forall key :: key in finalKeys <==>
         exists k | 0 <= k < |seen| && seen[k] in t :: key == FinalKey(c, t[seen[k]]))
    && (forall j, k | 0 <= j < k < |seen| && seen[j] in t && seen[k] in t ::
         FinalKey(c, t[seen[j]]) != FinalKey(c, t[seen[k]]))
  }

  lemma CheckedMeansRestorable(c: Codec, t: Table, order: seq<string>, updates: seq<string>,
                               finalKeys: set<(string, string, string)>)
    requires Enumerates(order, t.Keys) && Checked(c, t, order, updates, finalKeys)
    ensures Restorable(c, t) && forall id | id in t && id !in updates :: RestoredTable(c, t)[id] == t[id]
    ensures forall i | 0 <= i < |updates| :: updates[i] in t
  {
    hide Restore, Restored;
    assert forall id | id in t :: id in order;
    forall a, b | a in t && b in t && a != b ensures FinalKey(c, t[a]) != FinalKey(c, t[b]) {
      var i :| 0 <= i < |order| && order[i] == a;
      var j :| 0 <= j < |order| && order[j] == b;
      assert i != j;
    }
  }

  lemma CheckedOneMore(c: Codec, t: Table, seen: seq<string>, id: string, updates: seq<string>, updates': seq<string>,
                       finalKeys: set<(string, string, string)>)
    requires Checked(c, t, seen, updates, finalKeys) && id in t && !Restore(c, t[id]).Bad?
    requires FinalKey(c, t[id]) !in finalKeys
    requires updates' == if Restore(c, t[id]).Rewritten? then updates + [id] else updates
    ensures Checked(c, t, seen + [id], updates', finalKeys + {FinalKey(c, t[id])})
  {
    assert id in updates' || Restored(c, t[id]) == t[id];
    hide Restore, Restored, FinalKey;
    var seen', finalKeys' := seen + [id], finalKeys + {FinalKey(c, t[id])};
    forall key
      ensures key in finalKeys' <==> exists k | 0 <= k < |seen'| && seen'[k] in t :: key == FinalKey(c, t[seen'[k]])
    {
      if key in finalKeys {
        var k :| 0 <= k < |seen| && seen[k] in t && key == FinalKey(c, t[seen[k]]);
        assert seen'[k] == seen[k];
      } else if key == FinalKey(c, t[id]) {
        assert seen'[|seen|] == id;
      }
    }
  }

  lemma RepeatedKey(c: Codec, t: Table, order: seq<string>, i: nat, updates: seq<string>,
                    finalKeys: set<(string, string, string)>)
    requires Enumerates(order, t.Keys) && i < |order| && order[i] in t
    requires Checked(c, t, order[..i], updates, finalKeys) && FinalKey(c, t[order[i]]) in finalKeys
    ensures !Restorable(c, t)
  {
    hide Restore;
    var k :| 0 <= k < |order[..i]| && order[..i][k] in t && FinalKey(c, t[order[i]]) == FinalKey(c, t[order[..i][k]]);
    var a, b := order[k], order[i];
    assert RestoredTable(c, t)[a] == Restored(c, t[a]) && RestoredTable(c, t)[b] == Restored(c, t[b]);
  }

  /** The rows the upgrade rewrites, in the order of the SELECT. */
  function RewrittenIds(c: Codec, t: Table, order: seq<string>): seq<string> {
    if order == [] then []
    else
      var front, last := RewrittenIds(c, t, order[..|order| - 1]), order[|order| - 1];
      if last in t && Restore(c, t[last]).Rewritten? then front + [last] else front
  }

  lemma {:induction false} RewrittenFrom(c: Codec, t: Table, order: seq<string>)
    ensures forall id | id in RewrittenIds(c, t, order) :: id in order && id in t && Restore(c, t[id]).Rewritten?
    ensures forall id | id in order && id in t && Restore(c, t[id]).Rewritten? :: id in RewrittenIds(c, t, order)
  {
    if order != [] {
      RewrittenFrom(c, t, order[..|order| - 1]);
    }
  }

  /** No row gets back the key that a row read later still has. */
  ghost predicate InTurn(c: Codec, t: Table, order: seq<string>) {
    forall i, j | 0 <= i < j < |order| && order[i] in t && order[j] in t :: FinalKey(c, t[order[i]]) != Key(t[order[j]])
  }

  lemma {:induction false} RewrittenDistinct(c: Codec, t: Table, order: seq<string>)
    requires AllDistinct(order)
    ensures AllDistinct(RewrittenIds(c, t, order))
  {
    if order != [] {
      var last := |order| - 1;
      RewrittenDistinct(c, t, order[..last]);
      RewrittenFrom(c, t, order[..last]);
      assert order[last] !in order[..last];
    }
  }

  /** No row of `ids` takes over the key that row `x` has now. */
  ghost predicate SparesKey(t: Table, t': Table, ids: seq<string>, x: string) {
    forall id | id in ids && id in t' && x in t :: Key(t'[id]) != Key(t[x])
  }

  lemma SparedByAll(c: Codec, t: Table, front: seq<string>, x: string)
    requires WideKeys(t) && WideKeys(RestoredTable(c, t)) && x in t && x !in front && forall id | id in front :: id in t
    ensures SparesKey(t, RestoredTable(c, t), front, x) <==>
      Restore(c, t[x]).Rewritten? ==> SparesKey(t, RestoredTable(c, t), RewrittenIds(c, t, front), x)
  {
    RewrittenFrom(c, t, front);
    forall id | id in front
      ensures id in RestoredTable(c, t) && Key(RestoredTable(c, t)[id]) == FinalKey(c, t[id])
      ensures !(Restore(c, t[id]).Rewritten? && Restore(c, t[x]).Rewritten?) ==> FinalKey(c, t[id]) != Key(t[x])
    {
      LastUnchanged(c, t, id, x);
    }
    hide RewrittenIds, Restore, FinalKey, WideKeys, RestoredTable;
  }

  /** The rows that stay as they are can be left out of account. */
  lemma {:induction false} OrderlyInTurn(c: Codec, t: Table, order: seq<string>)
    requires WideKeys(t) && WideKeys(RestoredTable(c, t)) && AllDistinct(order) && forall id | id in order :: id in t
    ensures Orderly(t, RestoredTable(c, t), RewrittenIds(c, t, order)) <==> InTurn(c, t, order)
  {
    if order != [] {
      var last := |order| - 1;
      var front, x := order[..last], order[last];
      assert order == front + [x] && x !in front;
      OrderlyInTurn(c, t, front);
      hide Orderly, InTurn, WideKeys, RestoredTable, SparesKey, Restore;
      SparedByAll(c, t, front, x);
      OrderlyMore(t, RestoredTable(c, t), RewrittenIds(c, t, front), x);
      InTurnMore(c, t, front, x);
    }
  }

  /** Two rows meet only if both are rewritten. */
  lemma LastUnchanged(c: Codec, t: Table, id: string, x: string)
    requires WideKeys(t) && WideKeys(RestoredTable(c, t)) && id in t && x in t && id != x
    ensures !(Restore(c, t[id]).Rewritten? && Restore(c, t[x]).Rewritten?) ==> FinalKey(c, t[id]) != Key(t[x])
  {
    hide Restore;
    assert Key(t[id]) != Key(t[x]) && RestoredTable(c, t)[id] == Restored(c, t[id])
      && RestoredTable(c, t)[x] == Restored(c, t[x]);
    assert FinalKey(c, t[id]) != FinalKey(c, t[x]);
  }

  lemma OrderlyMore(t: Table, t': Table, ids: seq<string>, x: string)
    ensures Orderly(t, t', ids + [x]) <==> Orderly(t, t', ids) && SparesKey(t, t', ids, x)
  {
    var ids' := ids + [x];
    if Orderly(t, t', ids') {
      forall i, j | 0 <= i < j < |ids| && ids[i] in t' && ids[j] in t ensures Key(t'[ids[i]]) != Key(t[ids[j]]) {
        assert ids'[i] == ids[i] && ids'[j] == ids[j];
      }
      forall id | id in ids && id in t' && x in t ensures Key(t'[id]) != Key(t[x]) {
        var i :| 0 <= i < |ids| && ids[i] == id;
        assert ids'[i] == id && ids'[|ids|] == x;
      }
    }
  }

  lemma InTurnMore(c: Codec, t: Table, order: seq<string>, x: string)
    ensures InTurn(c, t, order + [x]) <==> InTurn(c, t, order) && SparesKey(t, RestoredTable(c, t), order, x)
  {
    forall id | id in t ensures id in RestoredTable(c, t) && Key(RestoredTable(c, t)[id]) == FinalKey(c, t[id]) {
    }
    assert RestoredTable(c, t).Keys == t.Keys;
    var order' := order + [x];
    if InTurn(c, t, order') {
      forall i, j | 0 <= i < j < |order| && order[i] in t && order[j] in t
        ensures FinalKey(c, t[order[i]]) != Key(t[order[j]])
      {
        assert order'[i] == order[i] && order'[j] == order[j];
      }
      forall id | id in order && id in t && x in t ensures FinalKey(c, t[id]) != Key(t[x]) {
        var i :| 0 <= i < |order| && order[i] == id;
        assert order'[i] == id && order'[|order|] == x;
      }
    }
  }

  /** Whether the updates that restore a table collide on the way. */
  lemma UpdatesInTurn(c: Codec, t: Table, order: seq<string>)
    requires Enumerates(order, t.Keys) && WideKeys(t) && Restorable(c, t)
    ensures AllDistinct(RewrittenIds(c, t, order)) && WideKeys(RestoredTable(c, t))
    ensures Orderly(t, RestoredTable(c, t), RewrittenIds(c, t, order)) <==> InTurn(c, t, order)
    ensures SafeToRestore(c, t) ==> InTurn(c, t, order)
  {
    assert WideKeys(RestoredTable(c, t)) && AllDistinct(order) && forall id | id in order :: id in t;
    hide WideKeys, Enumerates, RestoredTable, Orderly, InTurn, RewrittenIds, AllDistinct, SafeToRestore, Restorable;
    RewrittenDistinct(c, t, order);
    OrderlyInTurn(c, t, order);
  }

  /** The loop of `_restore_version_rows`: decode every row, collect the updates, reject duplicate keys. */
  method CheckRows(c: Codec, t: Table, order: seq<string>) returns (ok: bool, updates: seq<string>)
    requires Enumerates(order, t.Keys)
    ensures ok == Restorable(c, t)
    ensures forall i | 0 <= i < |updates| :: updates[i] in t
    ensures ok ==> forall id | id in t && id !in updates :: RestoredTable(c, t)[id] == t[id]
    ensures ok ==> updates == RewrittenIds(c, t, order)
  {
    updates := [];
    var finalKeys: set<(string, string, string)> := {};
    CheckedStart(c, t, order);
    hide *;
    for i := 0 to |order|
      invariant Checked(c, t, order[..i], updates, finalKeys) && updates == RewrittenIds(c, t, order[..i])
    {
      var id := order[i];
      assert order[..i + 1] == order[..i] + [id];
      var key := FinalKey(c, t[id]);
      if Restore(c, t[id]).Bad? {
        return false, updates;
      }
      if key in finalKeys {
        RepeatedKey(c, t, order, i, updates, finalKeys);
        return false, updates;
      }
      var updates' := if Restore(c, t[id]).Rewritten? then updates + [id] else updates;
      CheckedOneMore(c, t, order[..i], id, updates, updates', finalKeys);
      RewrittenStep(c, t, order, i);
      updates, finalKeys := updates', finalKeys + {key};
    }
    assert order[..|order|] == order;
    CheckedMeansRestorable(c, t, order, updates, finalKeys);
    ok := true;
  }

  lemma RewrittenStep(c: Codec, t: Table, order: seq<string>, i: nat)
    requires i < |order| && order[i] in t
    ensures RewrittenIds(c, t, order[..i + 1]) ==
      if Restore(c, t[order[i]]).Rewritten? then RewrittenIds(c, t, order[..i]) + [order[i]]
      else RewrittenIds(c, t, order[..i])
  {
    assert order[..i + 1][..i] == order[..i];
  }

  lemma CheckedStart(c: Codec, t: Table, order: seq<string>)
    requires Enumerates(order, t.Keys)
    ensures Checked(c, t, order[..0], [], {}) && RewrittenIds(c, t, order[..0]) == []
    ensures forall i | 0 <= i < |order| :: order[i] in t
  {
    assert forall i | 0 <= i < |order| :: order[i] in t.Keys;
  }

  function Firsts(ids: seq<string>, k: nat): set<string>
    requires k <= |ids|
  {
    set i | 0 <= i < k :: ids[i]
  }

  /** The first `k` updates clash with no row that is updated after them. */
  ghost predicate OrderlyUpTo(t: Table, t': Table, ids: seq<string>, k: nat) {
    forall i, j | 0 <= i < j < |ids| && i < k && ids[i] in t' && ids[j] in t :: Key(t'[ids[i]]) != Key(t[ids[j]])
  }

  /** The next update is legal exactly if no row that is still to be updated has the new key. */
  lemma MixedNext(t: Table, t': Table, ids: seq<string>, k: nat)
    requires t.Keys == t'.Keys && k < |ids| && AllDistinct(ids) && WideKeys(t')
    requires forall i | 0 <= i < |ids| :: ids[i] in t
    requires forall id | id in t && id !in ids :: t'[id] == t[id]
    requires WideKeys(Mixed(t, t', Firsts(ids, k))) && OrderlyUpTo(t, t', ids, k)
    ensures WideKeys(Mixed(t, t', Firsts(ids, k) + {ids[k]})) <==> OrderlyUpTo(t, t', ids, k + 1)
    ensures Orderly(t, t', ids) ==> OrderlyUpTo(t, t', ids, k + 1)
    ensures Firsts(ids, k) + {ids[k]} == Firsts(ids, k + 1)
  {
    var now, next := Mixed(t, t', Firsts(ids, k)), Mixed(t, t', Firsts(ids, k) + {ids[k]});
    if OrderlyUpTo(t, t', ids, k + 1) {
      forall a, b | a in next && b in next && a != b ensures Key(next[a]) != Key(next[b]) {
        MixedPair(t, t', ids, k, a, b);
        MixedPair(t, t', ids, k, b, a);
      }
    } else {
      var j :| k < j < |ids| && Key(t'[ids[k]]) == Key(t[ids[j]]);
      assert next[ids[k]] == t'[ids[k]] && next[ids[j]] == t[ids[j]];
    }
  }

  lemma MixedPair(t: Table, t': Table, ids: seq<string>, k: nat, a: string, b: string)
    requires t.Keys == t'.Keys && k < |ids| && WideKeys(t') && a in t && b in t && a != b
    requires forall i | 0 <= i < |ids| :: ids[i] in t
    requires forall id | id in t && id !in ids :: t'[id] == t[id]
    requires WideKeys(Mixed(t, t', Firsts(ids, k))) && OrderlyUpTo(t, t', ids, k + 1)
    ensures var next := Mixed(t, t', Firsts(ids, k) + {ids[k]});
      (a == ids[k] ==> Key(next[a]) != Key(next[b])) && (a != ids[k] && b != ids[k] ==> Key(next[a]) != Key(next[b]))
  {
    var now, next := Mixed(t, t', Firsts(ids, k)), Mixed(t, t', Firsts(ids, k) + {ids[k]});
    assert Key(t'[a]) != Key(t'[b]);
    if a != ids[k] && b != ids[k] {
      assert now[a] == next[a] && now[b] == next[b];
    } else if a == ids[k] && b !in Firsts(ids, k) && b in ids {
      var j :| 0 <= j < |ids| && ids[j] == b;
      assert j > k;
    }
  }

  /** The row keeps its build key if and only if it leads its group. */
  ghost predicate KeepsKey(t: Table, t': Table, id: string)
    requires id in t
  {
    id in t' && (t'[id].buildKey == t[id].buildKey <==> LeadsGroup(t, id))
  }

  lemma KeptKeys(c: Codec, t: Table, names: Names, order: seq<string>)
    requires names.Keys == t.Keys == SlotsOf(t).Keys && Enumerates(order, t.Keys)
    requires forall id | id in SlotsOf(t) :: names[id] == SlotsOf(t)[id].group.name <==> Leads(SlotsOf(t), id)
    ensures var t' := PreparedTable(c, t, names);
      && t'.Keys == t.Keys
      && (forall id | id in t :: KeepsKey(t, t', id))
      && (ListedById(t, order) ==> forall i | 0 <= i < |order| && order[i] in t && order[i] in t' ::
            t'[order[i]].buildKey == t[order[i]].buildKey <==> Earliest(t, order, i))
  {
    hide SlotsOf, Leads, LeadsGroup, ListedById, Earliest, EnvelopeOf, Enumerates;
    forall id | id in t ensures PreparedTable(c, t, names)[id].buildKey == t[id].buildKey <==> LeadsGroup(t, id) {
      LeadsIs(t, id);
      SlotIs(t, id);
    }
    forall i | 0 <= i < |order| && order[i] in t && ListedById(t, order)
      ensures LeadsGroup(t, order[i]) <==> Earliest(t, order, i)
    {
      EarliestLeads(t, order, i);
    }
  }

  /** The table with its unique key in force: no statement ever leaves a table that breaks it. */
  class VersionStore {
    var rows: Table

    ghost predicate Valid()
      reads this
    {
      WideKeys(rows)
    }

    constructor (rows: Table)
      requires WideKeys(rows)
      ensures Valid() && this.rows == rows
    {
      this.rows := rows;
    }

    /** UPDATE ... WHERE id = :id, rejected when it would break the unique key. */
    method Update(id: string, row: VersionRow) returns (ok: bool)
      requires WideKeys(rows) && id in rows
      modifies this
      ensures WideKeys(rows) && Valid()
      ensures ok == WideKeys(old(rows)[id := row])
      ensures rows == if ok then old(rows)[id := row] else old(rows)
    {
      ok := WideKeys(rows[id := row]);
      if ok {
        rows := rows[id := row];
      }
    }

    /** The table as a whole is replaced: by a rollback, or when its columns change. */
    method Replace(table: Table)
      requires WideKeys(table)
      modifies this
      ensures Valid() && rows == table
    {
      rows := table;
    }

    /** Issue the collected updates one by one. */
    method UpdateAll(ids: seq<string>, t': Table) returns (ok: bool)
      requires Valid() && t'.Keys == rows.Keys && WideKeys(t') && AllDistinct(ids)
      requires forall i | 0 <= i < |ids| :: ids[i] in rows
      requires forall id | id in rows && id !in ids :: t'[id] == rows[id]
      modifies this
      ensures Valid()
      ensures ok ==> rows == t'
      ensures ok <==> Orderly(old(rows), t', ids)
    {
      ghost var t := rows;
      assert WideKeys(rows);
      hide Orderly, OrderlyUpTo, WideKeys, Mixed, AllDistinct, Firsts;
      for k := 0 to |ids|
        invariant WideKeys(rows) && rows == Mixed(t, t', Firsts(ids, k)) && OrderlyUpTo(t, t', ids, k)
      {
        MixedNext(t, t', ids, k);
        MixedStep(t, t', Firsts(ids, k), ids[k]);
        ok := Update(ids[k], t'[ids[k]]);
        if !ok {
          return;
        }
      }
      ok := true;
    }

    /** `_prepare_version_rows`, for any order the SELECT may return. It always succeeds, and
        leaves the narrower key unique. */
    method PrepareRows(c: Codec, order: seq<string>) returns (outcome: Outcome)
      requires Valid() && c.Faithful() && Enumerates(order, rows.Keys)
      modifies this
      ensures Valid() && outcome == Done
      ensures Prepared(c, old(rows), rows)
      ensures NarrowKeys(DropProvider(rows))
      ensures rows.Keys == old(rows).Keys && forall id | id in old(rows) :: KeepsKey(old(rows), rows, id)
      ensures ListedById(old(rows), order) ==>
        forall i | 0 <= i < |order| && order[i] in old(rows) && order[i] in rows ::
          rows[order[i]].buildKey == old(rows)[order[i]].buildKey <==> Earliest(old(rows), order, i)
    {
      ghost var t := rows;
      NoLegacyClash(rows);
      assert SlotsOf(rows).Keys == rows.Keys;
      hide Naming, SlotsOf, PreparedTable, LegacyClash, WideKeys, DropProvider, NarrowKeys, Mixed, Enumerates,
        Codec.Faithful, AllDistinct, Orderly;
      var naming := AssignNames(c, "version", SlotsOf(rows), order);
      var names := naming.value;
      var updates := ChangedRows(c, rows, names, order);
      PreparedOrderly(c, rows, names, updates);
      PreparedIsNarrow(c, rows, names);
      PreparedKeys(c, rows, names);
      var ok := UpdateAll(updates, PreparedTable(c, rows, names));
      KeptKeys(c, t, names, order);
      return Done;
    }

    /** `_restore_version_rows`: every check comes before the first UPDATE. */
    method RestoreRows(c: Codec, order: seq<string>) returns (outcome: Outcome)
      requires Valid() && c.Faithful() && Enumerates(order, rows.Keys)
      modifies this
      ensures Valid()
      ensures outcome == Refused <==> !Restorable(c, old(rows))
      ensures outcome == Refused ==> rows == old(rows)
      ensures (exists id | id in old(rows) :: Unreadable(c, old(rows)[id])) ==> outcome == Refused
      ensures outcome == Done ==> rows == RestoredTable(c, old(rows))
      ensures outcome == Done <==> Restorable(c, old(rows)) && InTurn(c, old(rows), order)
      ensures Restorable(c, old(rows)) && SafeToRestore(c, old(rows)) ==> outcome == Done
    {
      var checked, updates := CheckRows(c, rows, order);
      forall id | id in rows && Unreadable(c, rows[id]) ensures !checked {
        UnreadableIsRefused(c, rows, id);
      }
      if !checked {
        return Refused;
      }
      assert RestoredTable(c, rows).Keys == rows.Keys;
      hide *;
      UpdatesInTurn(c, rows, order);
      var ok := UpdateAll(updates, RestoredTable(c, rows));
      return if ok then Done else IntegrityError;
    }

    /** Downgrade then upgrade. The table comes back exactly if and only if no legacy row already
        carried the envelope prefix. */
    method DowngradeThenUpgrade(c: Codec, order: seq<string>, order': seq<string>) returns (outcome: Outcome)
      requires Valid() && c.Faithful() && Enumerates(order, rows.Keys) && Enumerates(order', rows.Keys)
      modifies this
      ensures outcome == Done && rows == old(rows) <==> NoLegacyEnvelope(old(rows))
    {
      ghost var t := rows;
      outcome := PrepareRows(c, order);
      assert rows.Keys == t.Keys by { PreparedIsTotal(c, t, rows); }
      hide *;
      ghost var names := NamesOf(c, t, rows);
      TableRoundTrip(c, t, names);
      ReturnedKeys(c, t, names);
      if !NarrowKeys(DropProvider(rows)) {
        return IntegrityError;
      }
      rows := AddProvider(DropProvider(rows));
      assert rows == Returned(c, t, names) by { ReturnedIs(c, t, names); }
      outcome := RestoreRows(c, order');
    }
  }
}
