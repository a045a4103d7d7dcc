/** Migration 0018 as a whole: both tables in one transaction, versions first, the cache after them. */
module ProviderMigration {
  import opened Prelude
  import opened EnvelopeCodec
  import opened CompatibilityNames
  import opened TwoPhaseRename
  import Versions = VersionMigration
  import Cache = CacheMigration

  datatype Outcome = DowngradeRefused | UpgradeRefused | IntegrityError | Done

  /** `_prepare_provider_downgrade`: when the cache refuses, the transaction takes the versions back too. */
  method Downgrade(c: Codec, versions: Versions.VersionStore, cache: CacheStore, versionOrder: seq<string>,
                   cacheOrder: seq<string>)
    returns (ok: bool, ghost cacheNames: Names)
    requires versions.Valid() && WideKeys(cache.rows) && c.Faithful()
    requires Enumerates(versionOrder, versions.rows.Keys) && Enumerates(cacheOrder, cache.rows.Keys)
    modifies versions, cache
    ensures versions.Valid() && WideKeys(cache.rows)
    ensures ok <==> !Cache.Collision(c, old(cache.rows))
    ensures !ok ==> versions.rows == old(versions.rows) && cache.rows == old(cache.rows)
    ensures ok ==>
      && Versions.Prepared(c, old(versions.rows), versions.rows)
      && Versions.NarrowKeys(Versions.DropProvider(versions.rows))
    ensures ok ==>
      && cacheNames.Keys == old(cache.rows).Keys && Naming(Cache.SlotsOf(old(cache.rows)), cacheNames)
      && Cache.Prepared(c, old(cache.rows), cacheNames, cache.rows) && Cache.NarrowKeys(cache.rows)
  {
    var before := versions.rows;
    assert Versions.WideKeys(before);
    hide *;
    var prepared := versions.PrepareRows(c, versionOrder);
    var outcome;
    outcome, cacheNames := Cache.PrepareRows(c, cache, cacheOrder);
    if outcome != Cache.Done {
      versions.Replace(before);
    }
    ok := outcome == Cache.Done;
  }

  /** What an upgrade comes to: it goes through exactly if the checks of both tables pass and no update clashes. */
  ghost predicate Upgraded(c: Codec, v: Versions.Table, k: Table, order: seq<string>, cacheOrder: seq<string>,
                           outcome: Outcome, v': Versions.Table, k': Table)
  {
    && (outcome == Done <==>
          && Versions.Restorable(c, v) && Versions.InTurn(c, v, order) && Cache.Restorable(c, k)
          && Cache.InTurn(c, k, cacheOrder))
    && (outcome == Done ==> v' == Versions.RestoredTable(c, v) && Cache.IsRestored(c, k, k'))
  }

  /** `_restore_provider_identity` over tables whose provider column was just added; whatever raises,
      the transaction leaves both tables as it found them. */
  method Upgrade(c: Codec, versions: Versions.VersionStore, cache: CacheStore, versionOrder: seq<string>,
                 cacheOrder: seq<string>)
    returns (outcome: Outcome)
    requires versions.Valid() && WideKeys(cache.rows) && c.Faithful()
    requires Enumerates(versionOrder, versions.rows.Keys) && Enumerates(cacheOrder, cache.rows.Keys)
    modifies versions, cache
    ensures versions.Valid() && WideKeys(cache.rows)
    ensures outcome != Done ==> versions.rows == old(versions.rows) && cache.rows == old(cache.rows)
    ensures Upgraded(c, old(versions.rows), old(cache.rows), versionOrder, cacheOrder, outcome, versions.rows,
                     cache.rows)
    ensures outcome != DowngradeRefused
  {
    var versionsBefore, cacheBefore := versions.rows, cache.rows;
    assert Versions.WideKeys(versionsBefore);
    hide *;
    var restored := versions.RestoreRows(c, versionOrder);
    if restored != Versions.Done {
      versions.Replace(versionsBefore);
      UpgradedIs(c, versionsBefore, cacheBefore, versionOrder, cacheOrder, UpgradeRefused, versions.rows, cache.rows);
      UpgradedIs(c, versionsBefore, cacheBefore, versionOrder, cacheOrder, IntegrityError, versions.rows, cache.rows);
      return if restored == Versions.Refused then UpgradeRefused else IntegrityError;
    }
    var cached := Cache.RestoreRows(c, cache, cacheOrder);
    if cached != Cache.Done {
      versions.Replace(versionsBefore);
      cache.rows := cacheBefore;
      UpgradedIs(c, versionsBefore, cacheBefore, versionOrder, cacheOrder, UpgradeRefused, versions.rows, cache.rows);
      UpgradedIs(c, versionsBefore, cacheBefore, versionOrder, cacheOrder, IntegrityError, versions.rows, cache.rows);
      return if cached == Cache.Refused then UpgradeRefused else IntegrityError;
    }
    UpgradedIs(c, versionsBefore, cacheBefore, versionOrder, cacheOrder, Done, versions.rows, cache.rows);
    outcome := Done;
  }

  lemma UpgradedIs(c: Codec, v: Versions.Table, k: Table, order: seq<string>, cacheOrder: seq<string>,
                   outcome: Outcome, v': Versions.Table, k': Table)
    requires outcome == Done <==>
      && Versions.Restorable(c, v) && Versions.InTurn(c, v, order) && Cache.Restorable(c, k)
      && Cache.InTurn(c, k, cacheOrder)
    requires outcome == Done ==> v' == Versions.RestoredTable(c, v) && Cache.IsRestored(c, k, k')
    ensures Upgraded(c, v, k, order, cacheOrder, outcome, v', k')
  {
  }

  /** The version table as the upgrade finds it, with the column added again. */
  function Returned(t: Versions.Table): Versions.Table {
    Versions.AddProvider(Versions.DropProvider(t))
  }

  lemma VersionsReturn(c: Codec, t: Versions.Table, t': Versions.Table)
    requires c.Faithful() && Versions.WideKeys(t) && Versions.Prepared(c, t, t')
    ensures Returned(t').Keys == t.Keys && Versions.WideKeys(Returned(t'))
    ensures Versions.Restorable(c, Returned(t')) && Versions.RestoredTable(c, Returned(t')) == t
       <==> Versions.NoLegacyEnvelope(t)
    ensures Versions.NoLegacyEnvelope(t) ==> Versions.SafeToRestore(c, Returned(t'))
  {
    hide *;
    var names := Versions.NamesOf(c, t, t');
    Versions.ReturnedIs(c, t, names);
    Versions.ReturnedKeys(c, t, names);
    Versions.TableRoundTrip(c, t, names);
    assert Returned(t') == Versions.Returned(c, t, names) by { ReturnedIs(t'); }
  }

  lemma ReturnedIs(t: Versions.Table)
    ensures Returned(t) == Versions.AddProvider(Versions.DropProvider(t))
  {
  }

  lemma UpgradedMeans(c: Codec, v: Versions.Table, k: Table, order: seq<string>, cacheOrder: seq<string>,
                      outcome: Outcome, v': Versions.Table, k': Table)
    requires Upgraded(c, v, k, order, cacheOrder, outcome, v', k')
    ensures outcome == Done <==>
      && Versions.Restorable(c, v) && Versions.InTurn(c, v, order) && Cache.Restorable(c, k)
      && Cache.InTurn(c, k, cacheOrder)
    ensures outcome == Done ==> v' == Versions.RestoredTable(c, v) && Cache.IsRestored(c, k, k')
  {
  }

  /** An upgrade that follows a downgrade can only succeed in full if no legacy row was enveloped. */
  lemma CleanIfReturned(c: Codec, v: Versions.Table, prepared: Versions.Table, k: Table, names: Names, hidden: Table,
                        order: seq<string>, cacheOrder: seq<string>)
    requires c.Faithful() && Versions.WideKeys(v) && Versions.Prepared(c, v, prepared)
    requires names.Keys == k.Keys && Naming(Cache.SlotsOf(k), names) && Cache.Prepared(c, k, names, hidden)
    requires Upgraded(c, Returned(prepared), Cache.ResetProvider(hidden), order, cacheOrder, Done, v, k)
    ensures Versions.NoLegacyEnvelope(v) && Cache.NoLegacyEnvelope(k)
  {
    UpgradedMeans(c, Returned(prepared), Cache.ResetProvider(hidden), order, cacheOrder, Done, v, k);
    hide *;
    VersionsReturn(c, v, prepared);
    if !Cache.NoLegacyEnvelope(k) {
      Cache.EnvelopedRoundTrip(c, k, names, hidden, k);
    }
  }

  /** And then it does. */
  lemma ReturnedIfClean(c: Codec, v: Versions.Table, prepared: Versions.Table, k: Table, names: Names, hidden: Table,
                        order: seq<string>, cacheOrder: seq<string>, outcome: Outcome, v': Versions.Table, k': Table)
    requires c.Faithful() && Versions.WideKeys(v) && Versions.Prepared(c, v, prepared) && Enumerates(order, v.Keys)
    requires WideKeys(k) && names.Keys == k.Keys && Naming(Cache.SlotsOf(k), names)
      && Cache.Prepared(c, k, names, hidden)
    requires Cache.NarrowKeys(hidden) && Enumerates(cacheOrder, Cache.ResetProvider(hidden).Keys)
    requires Upgraded(c, Returned(prepared), Cache.ResetProvider(hidden), order, cacheOrder, outcome, v', k')
    requires Versions.NoLegacyEnvelope(v) && Cache.NoLegacyEnvelope(k)
    ensures outcome == Done && v' == v && k' == k
  {
    UpgradedMeans(c, Returned(prepared), Cache.ResetProvider(hidden), order, cacheOrder, outcome, v', k');
    hide *;
    VersionsReturn(c, v, prepared);
    Versions.UpdatesInTurn(c, Returned(prepared), order);
    Cache.ResetKeepsKeys(hidden);
    Cache.CleanRoundTrip(c, k, names, hidden);
    Cache.UpdatesInTurn(c, Cache.ResetProvider(hidden), cacheOrder);
  }

  /** The upgrade that follows a downgrade: the provider columns come back with their default first. */
  method UpgradeAgain(c: Codec, versions: Versions.VersionStore, cache: CacheStore, upgradeOrder: seq<string>,
                      ghost v: Versions.Table, ghost k: Table, ghost names: Names)
    returns (outcome: Outcome)
    requires c.Faithful() && Versions.WideKeys(v) && Versions.Prepared(c, v, versions.rows)
      && Enumerates(upgradeOrder, v.Keys)
    requires WideKeys(k) && names.Keys == k.Keys && Naming(Cache.SlotsOf(k), names)
    requires Cache.Prepared(c, k, names, cache.rows) && Cache.NarrowKeys(cache.rows)
    modifies versions, cache
    ensures outcome != DowngradeRefused
    ensures outcome == Done && versions.rows == v && cache.rows == k <==>
      Versions.NoLegacyEnvelope(v) && Cache.NoLegacyEnvelope(k)
  {
    hide *;
    ghost var prepared, hidden := versions.rows, cache.rows;
    VersionsReturn(c, v, prepared);
    ReturnedIs(prepared);
    Cache.ResetKeepsKeys(hidden);
    versions.Replace(Versions.AddProvider(Versions.DropProvider(versions.rows)));
    cache.rows := Cache.ResetProvider(cache.rows);
    var order := Cache.SelectIds(cache.rows);
    outcome := Upgrade(c, versions, cache, upgradeOrder, order);
    if Versions.NoLegacyEnvelope(v) && Cache.NoLegacyEnvelope(k) {
      ReturnedIfClean(c, v, prepared, k, names, hidden, upgradeOrder, order, outcome, versions.rows, cache.rows);
    } else if outcome == Done && versions.rows == v && cache.rows == k {
      CleanIfReturned(c, v, prepared, k, names, hidden, upgradeOrder, order);
    }
  }

  /** The law of the migration: the downgrade is refused exactly for a cache row whose id is the envelope
      of another, and then neither table has changed; otherwise downgrade and upgrade bring both tables
      back exactly if and only if no legacy row of either carried an envelope prefix. */
  method DowngradeThenUpgrade(c: Codec, versions: Versions.VersionStore, cache: CacheStore, versionOrder: seq<string>,
                              cacheOrder: seq<string>, upgradeOrder: seq<string>)
    returns (outcome: Outcome)
    requires versions.Valid() && WideKeys(cache.rows) && c.Faithful()
    requires Enumerates(versionOrder, versions.rows.Keys) && Enumerates(cacheOrder, cache.rows.Keys)
    requires Enumerates(upgradeOrder, versions.rows.Keys)
    modifies versions, cache
    ensures outcome == DowngradeRefused <==> Cache.Collision(c, old(cache.rows))
    ensures outcome == DowngradeRefused ==> versions.rows == old(versions.rows) && cache.rows == old(cache.rows)
    ensures outcome == Done && versions.rows == old(versions.rows) && cache.rows == old(cache.rows) <==>
      && Versions.NoLegacyEnvelope(old(versions.rows)) && Cache.NoLegacyEnvelope(old(cache.rows))
      && !Cache.Collision(c, old(cache.rows))
  {
    ghost var v, k := versions.rows, cache.rows;
    assert Versions.WideKeys(v);
    hide *;
    var ok;
    ghost var names;
    ok, names := Downgrade(c, versions, cache, versionOrder, cacheOrder);
    if !ok {
      return DowngradeRefused;
    }
    outcome := UpgradeAgain(c, versions, cache, upgradeOrder, v, k, names);
  }
}
