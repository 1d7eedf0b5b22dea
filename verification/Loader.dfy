/** The return handler: squashes a block's changes, applies them to loaded entities, saves the block. */
module Loaders {
  import opened Prelude
  import opened VersionedRows
  import opened EntityCaches
  import opened StoreSpec
  import opened Stores
  import Sq = Squash
  import opened DatabaseChanges
  import opened BlockEffects
  import opened Columns

  // ---------------------------------------------------------------------
  // Applying a change
  // ---------------------------------------------------------------------

  /** Writes the change into the entity column by column, up to the first that rejects its text. */
  method ApplyTableChange(change: TableChange, ent: Entity, columns: seq<Column>) returns (ok: bool)
    modifies ent`fields
    ensures ok <==> Agreeable(columns, change.fields)
    ensures ok ==> Takes(columns, change.fields, old(ent.fields), ent.fields)
    ensures !ok ==> exists m :: 0 <= m < |columns| && Agreeable(columns[..m], change.fields)
                      && !Agreeable(columns[..m + 1], change.fields)
                      && Takes(columns[..m + 1], change.fields, old(ent.fields), ent.fields)
    ensures ok <==> Acceptable(columns, Texts(change.fields))
    ensures ent.fields == if ok then Overwrite(columns, old(ent.fields), Sq.AsMap(change.fields))
                          else PartlyOverwrite(columns, old(ent.fields), Sq.AsMap(change.fields))
    ensures ent.Val() == old(ent.Val()).(fields := ent.fields)
  {
    ok := WriteColumns(change, ent, columns);
    AcceptableIff(columns, change.fields);
    OverwriteTakes(columns, old(ent.fields), change.fields);
    if !ok {
      ghost var m := StopsAt(columns, old(ent.fields), change.fields);
    }
  }

  /** The loop of ApplyTableChange. */
  method WriteColumns(change: TableChange, ent: Entity, columns: seq<Column>) returns (ok: bool)
    modifies ent`fields
    ensures ok <==> Acceptable(columns, Texts(change.fields))
    ensures ent.fields == if ok then Overwrite(columns, old(ent.fields), Sq.AsMap(change.fields))
                          else PartlyOverwrite(columns, old(ent.fields), Sq.AsMap(change.fields))
    ensures ent.Val() == old(ent.Val()).(fields := ent.fields)
  {
    var fieldChanges := ByName(change.fields);
    ghost var texts := Sq.NewValues(fieldChanges);
    assert columns[0..] == columns && Readings(columns[..0], texts) == map[] && Visited([], texts) == 0;
    hide Readings, Visited, Sq.AsMap;
    for i := 0 to |columns|
      invariant forall j | 0 <= j < i :: !Rejects(columns[j], texts)
      invariant Visited(columns, texts) == i + Visited(columns[i..], texts)
      invariant ent.fields == old(ent.fields) + Readings(columns[..i], texts)
      invariant ent.Val() == old(ent.Val()).(fields := ent.fields)
    {
      ReadOneMoreColumn(columns, texts, old(ent.fields), i);
      var c := columns[i];
      if c.name in fieldChanges {
        var text := fieldChanges[c.name].newValue;
        if c.kind.Reads? {
          ent.fields := ent.fields[c.name := c.kind.read(text)];
        }
        if !c.Accepts(text) {
          return false;
        }
      }
    }
    assert columns[..|columns|] == columns;
    ok := true;
  }

  // ---------------------------------------------------------------------
  // The loader
  // ---------------------------------------------------------------------

  class Loader {
    const store: Store
    const registry: Registry
    /** What the block found in the store: a private copy, or null for an id that is not there. */
    var current: map<Key, Entity?>
    /** What the block will save. */
    var updates: Updates

    /** Where the current block's reads start in the store's log. */
    ghost var began: nat

    constructor (store: Store, registry: Registry)
      requires forall x | x in registry :: x in store.zeros && store.zeros[x] == registry[x].zero
      ensures this.store == store && this.registry == registry && current == map[] && updates == map[]
      ensures Valid()
    {
      this.store, this.registry, this.current, this.updates := store, registry, map[], map[];
      began := |store.queried|;
    }

    predicate Updated(k: Key)
      reads this`updates
    {
      k.table in updates && k.id in updates[k.table]
    }

    /** The store has a table for each registered type. */
    ghost predicate Configured() {
      forall x | x in registry :: x in store.zeros && store.zeros[x] == registry[x].zero
    }

    /** The pending updates and the private copies are filed under their own keys;
        the copies say what the store holds; each key was read at most once. */
    ghost predicate Valid()
      reads this, store, AllEntities(updates), CurrentEntities(current)
    {
      && Configured()
      && UpdatesFiled(updates)
      && CurrentOk(current, store.tables)
      && ReadOnce(store.queried, began, current.Keys)
    }

    method Save(ent: Entity)
      modifies this`updates, ent`present
      ensures ent.present
      ensures updates == Filed(old(updates), ent)
    {
      if ent.table !in updates {
        updates := updates[ent.table := map[]];
      }
      ent.present := true;
      updates := updates[ent.table := updates[ent.table][ent.id := ent]];
    }

    // -------------------------------------------------------------------
    // One block
    // -------------------------------------------------------------------

    /** Part way through a block that began in state s: the rows in effects are
        overwritten and pending, the keys in known were read; the rest of the cache is as it was,
        and what it holds of a pending row that was not cached before is the pending entity. */
    ghost predicate Handling(s: State, effects: map<Key, Fields>, known: set<Key>)
      reads this, store, store.persistentCache, store.persistentCache.entityMap.Values, AllEntities(updates),
            CurrentEntities(current)
    {
      && Valid() && store.Valid()
      && RowsOf(store.tables) == s.tables
      && current.Keys == known
      && updates.Keys <= s.tables.Keys
      && AllHandled(updates, s.tables, effects)
      && CacheKept(s.cache, store.View().cache, known)
      && NewArePended(s, store.View().cache, effects)
    }

    /** The entity of key k as the store has it, not yet shared with the loader,
        but shared with a cache that did not have it. */
    ghost predicate Fetched(s: State, ent: Entity, k: Key)
      reads this`updates, this`current, ent, CurrentEntities(current), store.persistentCache`entityMap
      requires k.table in registry && k.table in s.tables
    {
      && ent.FullKey() == k && ent !in AllEntities(updates) && ent !in CurrentEntities(current)
      && Shares(s, store.persistentCache.entityMap, ent, k)
      && AsLoaded(s.tables[k.table], ent.Val()) && (ent.present <==> ent.range.Some?)
      && Started(ent.Val(), registry[k.table]) == BaseFields(s.tables[k.table], k.id, registry[k.table])
    }

    /** Loads the row of one squashed change, or its defaults, applies the change and makes it pending. */
    method HandleChange(change: TableChange, n: nat, ghost s: State, ghost effects: map<Key, Fields>) returns (ok: bool)
      requires Handling(s, effects, effects.Keys) && Coherent(s, store.zeros)
      requires (forall x | x in s.tables :: Below(s.tables[x], n)) && KeyOf(change.Val()) !in effects
      modifies this`current, this`updates, store.persistentCache, store`queried
      ensures ok <==> CanApply(change.Val(), registry)
      ensures ok ==> change.table in s.tables && change.table in registry
      ensures ok ==> var k := KeyOf(change.Val());
                     Handling(s, effects[k := EffectOf(s.tables, change.Val(), registry)], effects.Keys + {k})
      ensures forall e | e in AllEntities(updates) :: e in old(AllEntities(updates)) || fresh(e)
      ensures store.Valid() && CacheKept(s.cache, store.View().cache, effects.Keys + {KeyOf(change.Val())})
      ensures !ok ==> LeftBy(s, store.View().cache, effects, change.Val(), registry)
      ensures KeepsCached(old(store.persistentCache.entityMap), store.persistentCache.entityMap)
    {
      hide Coherent, Below, Handling, Fetched, Overwrite, BaseFields, Store.Valid, CacheKept, KeepsCached, LeftBy,
        Shares;
      ok := false;
      ghost var k, before := KeyOf(change.Val()), store.persistentCache.entityMap;
      if change.table !in registry {
        HandlingKeeps(s, effects, change.Val());
        KeepsItself(before);
        return;
      }
      var ent := NewEntity(change, s, effects);
      ok := Fetch(ent, n, s, effects);
      if !ok {
        NothingLeft(s, store.View().cache, effects, change.Val(), registry);
        return;
      }
      ok := Prepare(ent, change, s, effects, k);
      if ok {
        Pend(ent, s, effects, k);
        HandlingKept(s, effects[k := ent.fields], effects.Keys + {k}, effects.Keys + {k});
      } else {
        HandlingLeaves(ent, change.Val(), s, effects);
      }
    }

    lemma HandlingKeeps(s: State, effects: map<Key, Fields>, r: Sq.Change)
      requires Handling(s, effects, effects.Keys) && r.table !in registry
      ensures store.Valid() && CacheKept(s.cache, store.View().cache, effects.Keys + {KeyOf(r)})
      ensures LeftBy(s, store.View().cache, effects, r, registry)
    {
      hide Valid, Store.Valid, AllHandled, Pended, Unapplied;
      NothingLeft(s, store.View().cache, effects, r, registry);
    }

    /** A change that could not be applied left its entity as it was loaded. */
    lemma HandlingLeaves(ent: Entity, r: Sq.Change, s: State, effects: map<Key, Fields>)
      requires Handling(s, effects, effects.Keys + {KeyOf(r)}) && r.table in s.tables && r.table in registry
      requires Shares(s, store.persistentCache.entityMap, ent, KeyOf(r))
      requires Unapplied(s.tables, r, ent.Val(), registry) && r.pk != ""
      ensures store.Valid() && CacheKept(s.cache, store.View().cache, effects.Keys + {KeyOf(r)})
      ensures LeftBy(s, store.View().cache, effects, r, registry)
    {
      hide Valid, Store.Valid, AllHandled, Pended, Unapplied;
    }

    /** `registry.GetInterface` and `SetID`. */
    method NewEntity(change: TableChange, ghost s: State, ghost effects: map<Key, Fields>) returns (ent: Entity)
      requires Handling(s, effects, effects.Keys) && change.table in registry
      ensures Handling(s, effects, effects.Keys) && fresh(ent)
      ensures ent !in AllEntities(updates) && ent !in CurrentEntities(current)
      ensures ent.Val() == Blank(KeyOf(change.Val()), registry[change.table].zero) && store.View() == old(store.View())
    {
      hide Handling;
      assert forall e | e in AllEntities(updates) + CurrentEntities(current) :: allocated(e);
      ent := new Entity(change.table, change.pk, registry[change.table].zero);
    }

    method Fetch(ent: Entity, n: nat, ghost s: State, ghost effects: map<Key, Fields>) returns (ok: bool)
      requires Handling(s, effects, effects.Keys) && Coherent(s, store.zeros)
      requires (forall x | x in s.tables :: Below(s.tables[x], n)) && ent.FullKey() !in effects
      requires ent.table in registry && ent.Val() == Blank(ent.FullKey(), registry[ent.table].zero)
      requires ent !in AllEntities(updates) && ent !in CurrentEntities(current)
      modifies this`current, this`updates, ent, store.persistentCache, store`queried
      ensures ok <==> old(ent.id) != ""
      ensures ok ==> ent.FullKey() == old(ent.FullKey()) && Handling(s, effects, effects.Keys + {ent.FullKey()})
      ensures ok ==> ent.table in s.tables && ent.table in registry && Fetched(s, ent, ent.FullKey())
      ensures AllEntities(updates) == old(AllEntities(updates))
      ensures !ok ==> CacheKept(s.cache, store.View().cache, effects.Keys)
                      && NewArePended(s, store.View().cache, effects)
      ensures store.Valid() && CacheKept(s.cache, store.View().cache, effects.Keys + {old(ent.FullKey())})
      ensures KeepsCached(old(store.persistentCache.entityMap), store.persistentCache.entityMap)
    {
      hide Coherent, TableOk, Below, AllHandled, CacheKept, UpdatesFiled, CurrentOk, ReadOnce, Agrees, AsLoaded,
        Started, BaseFields, WellFormed, NewArePended, Shares;
      ghost var k, before, cached := ent.FullKey(), updates, store.View().cache;
      ghost var filed := store.persistentCache.entityMap;
      NotUpdated(updates, s.tables, effects, k);
      KeptIsCoherent(s, store.View(), effects.Keys, k, store.zeros);
      assert store.tables[k.table].rows == s.tables[k.table];
      ok := Load(ent, n);
      KeepMore(s.cache, cached, store.View().cache, effects.Keys, k);
      StillPended(s, cached, store.View().cache, effects, k);
      if ok {
        NewIsShared(s, cached, filed, store.persistentCache.entityMap, effects.Keys, ent, k);
        TableIsWellFormed(store.tables[k.table]);
        AgreesGivesBase(s.tables[k.table], k, ent.Val(), registry[k.table]);
        HandledStill(before, s.tables, effects, ent.table);
      }
    }

    /** Defaults for a row that is not there, then the change itself. */
    method Prepare(ent: Entity, change: TableChange, ghost s: State, ghost effects: map<Key, Fields>, ghost k: Key)
      returns (ok: bool)
      requires Handling(s, effects, effects.Keys + {k}) && k.table in s.tables && k.table in registry
      requires Fetched(s, ent, k) && k == KeyOf(change.Val()) && k !in effects
      modifies ent`fields
      ensures ok <==> Acceptable(registry[k.table].columns, Texts(change.fields))
      ensures Handling(s, effects, effects.Keys + {k})
      ensures ok ==> ent.fields == EffectOf(s.tables, change.Val(), registry)
      ensures !ok ==> Unapplied(s.tables, change.Val(), ent.Val(), registry)
      ensures ent.FullKey() == k && ent !in AllEntities(updates) && ent !in CurrentEntities(current)
      ensures AsLoaded(s.tables[k.table], ent.Val()) && Shares(s, store.persistentCache.entityMap, ent, k)
    {
      hide Valid, Store.Valid, AllHandled, CacheKept, BaseFields, Overwrite, AsLoaded, Started, SameExceptAt,
        NewArePended, Shares;
      ghost var cached, e := store.View().cache, ent.Val();
      ok := StartAndApply(ent, change);
      LoadedWhateverItHolds(s.tables[k.table], e, ent.Val());
      KeepKnown(s.cache, cached, store.View().cache, effects.Keys + {k}, k);
      StillPended(s, cached, store.View().cache, effects, k);
    }

    method StartAndApply(ent: Entity, change: TableChange) returns (ok: bool)
      requires Valid() && store.Valid() && ent.table in registry
      requires ent !in AllEntities(updates) && ent !in CurrentEntities(current)
      modifies ent`fields
      ensures Valid() && store.Valid()
      ensures ok <==> Acceptable(registry[ent.table].columns, Texts(change.fields))
      ensures var columns, started := registry[ent.table].columns, Started(old(ent.Val()), registry[ent.table]);
              ent.fields == if ok then Overwrite(columns, started, Sq.AsMap(change.fields))
                            else PartlyOverwrite(columns, started, Sq.AsMap(change.fields))
      ensures ent.Val() == old(ent.Val()).(fields := ent.fields)
      ensures SameExceptAt(old(store.View()).cache, store.View().cache, ent.FullKey())
    {
      hide TableOk, UpdatesFiled, CurrentOk, ReadOnce, Overwrite, PartlyOverwrite, Takes, Agreeable, Acceptable, Texts;
      if !ent.present {
        ent.fields := ent.fields + registry[ent.table].defaults;
      }
      ok := ApplyTableChange(change, ent, registry[ent.table].columns);
    }

    method Pend(ent: Entity, ghost s: State, ghost effects: map<Key, Fields>, ghost k: Key)
      requires Handling(s, effects, effects.Keys + {k}) && ent.FullKey() == k && k !in effects && k.table in s.tables
      requires ent !in AllEntities(updates) && ent !in CurrentEntities(current)
      requires AsLoaded(s.tables[k.table], ent.Val()) && Shares(s, store.persistentCache.entityMap, ent, k)
      modifies this`updates, ent`present
      ensures Handling(s, effects[k := ent.fields], effects.Keys + {k}) && ent.fields == old(ent.fields)
      ensures AllEntities(updates) == old(AllEntities(updates)) + {ent}
    {
      hide UpdatesFiled, CurrentOk, ReadOnce, AllHandled, CacheKept, IsOpenRow, Store.Valid, SameExceptAt, Filed,
        AsLoaded, NewArePended;
      ghost var before, cached, e := updates, store.View().cache, ent.Val();
      SaveQuietly(ent);
      LoadedWhateverItHolds(s.tables[k.table], e, ent.Val());
      PendOneMore(before, s.tables, effects, ent);
      KeepKnown(s.cache, cached, store.View().cache, effects.Keys + {k}, k);
      OneMorePended(s, cached, store.View().cache, effects, ent.Val());
    }

    /** What Save leaves alone. */
    method SaveQuietly(ent: Entity)
      requires Valid() && store.Valid() && ent !in CurrentEntities(current)
      modifies this`updates, ent`present
      ensures store.Valid() && Configured() && CurrentOk(current, store.tables)
              && ReadOnce(store.queried, began, current.Keys)
      ensures ent.Val() == old(ent.Val()).(present := true) && updates == Filed(old(updates), ent)
      ensures ent.table in updates && updates.Keys == old(updates.Keys) + {ent.table}
      ensures SameExceptAt(old(store.View()).cache, store.View().cache, ent.FullKey())
    {
      hide TableOk, UpdatesFiled, CurrentOk, ReadOnce;
      Save(ent);
    }

    method HandleAll(changes: seq<TableChange>, n: nat, ghost s: State, ghost rs: seq<Sq.Change>) returns (ok: bool)
      requires Handling(s, map[], {}) && Coherent(s, store.zeros) && forall x | x in s.tables :: Below(s.tables[x], n)
      requires rs == ValsOf(changes) && DistinctRows(rs) && updates == map[]
      modifies this`current, this`updates, store.persistentCache, store`queried
      ensures ok <==> forall r | r in rs :: CanApply(r, registry)
      ensures ok ==> Known(rs, s.tables, registry)
                     && var effects := Effects(s.tables, rs, registry); Handling(s, effects, effects.Keys)
      ensures ok ==> forall e | e in AllEntities(updates) :: fresh(e)
      ensures store.Valid() && NewAreLeft(s, store.View().cache, rs, registry)
      ensures KeepsCached(old(store.persistentCache.entityMap), store.persistentCache.entityMap)
    {
      hide Coherent, Below, Handling, CanApply, Overwrite, BaseFields, Store.Valid, CacheKept, KeepsCached, LeftBy,
        NewAreLeft;
      ghost var before, effects := store.persistentCache.entityMap, map[];
      assert effects.Keys == {} && rs[..0] == [];
      KeepsItself(before);
      var i := 0;
      while i < |changes|
        invariant i <= |changes| && ValsOf(changes) == rs
        invariant Known(rs[..i], s.tables, registry) && effects == Effects(s.tables, rs[..i], registry)
        invariant Handling(s, effects, effects.Keys)
        invariant forall r | r in rs[..i] :: CanApply(r, registry)
        invariant forall e | e in AllEntities(updates) :: fresh(e)
        invariant KeepsCached(before, store.persistentCache.entityMap)
      {
        RowNotYetHandled(rs, i, s.tables, registry);
        ghost var mid := store.persistentCache.entityMap;
        ok := HandleChange(changes[i], n, s, effects);
        KeepsTwice(before, mid, store.persistentCache.entityMap);
        if !ok {
          assert rs[i] in rs;
          LeftOfPrefix(s, store.View().cache, rs, i, registry);
          return;
        }
        ApplyOneMore(rs, i, s.tables, registry);
        effects := Effects(s.tables, rs[..i + 1], registry);
        i := i + 1;
      }
      assert rs[..i] == rs;
      HandlingLeft(s, rs);
      ok := true;
    }

    lemma HandlingKept(s: State, effects: map<Key, Fields>, known: set<Key>, all: set<Key>)
      requires Handling(s, effects, known) && known <= all
      ensures store.Valid() && CacheKept(s.cache, store.View().cache, all)
    {
    }

    lemma HandlingLeft(s: State, rs: seq<Sq.Change>)
      requires DistinctRows(rs) && Known(rs, s.tables, registry) && forall r | r in rs :: CanApply(r, registry)
      requires var effects := Effects(s.tables, rs, registry); Handling(s, effects, effects.Keys)
      ensures store.Valid() && NewAreLeft(s, store.View().cache, rs, registry)
    {
      hide Valid, Store.Valid, AllHandled, NewAreLeft, CanApply, NewArePended, CacheKept, Effects;
      LeftOfAll(s, store.View().cache, rs, registry);
    }

    /** Saves what is pending; the whole block then reads as one step from state s. */
    method Flush(n: nat, newCursor: string, fault: Fault, final: set<Key>, ghost s: State,
                 ghost effects: map<Key, Fields>) returns (r: Outcome, ghost saved: BlockChanges)
      requires Handling(s, effects, effects.Keys) && Coherent(s, store.zeros)
      requires 0 < n && forall x | x in s.tables :: Below(s.tables[x], n)
      modifies store`tables, store`cursor, store.persistentCache`entityMap, AllEntities(updates)
      ensures Answers(fault, r) && store.cursor == (if r.Saved? then newCursor else old(store.cursor))
      ensures Carries(saved, effects) && (!r.Stopped? ==> store.Valid())
      ensures r.Saved? ==> BlockStep(s, store.View(), n, saved, store.zeros) && Coherent(store.View(), store.zeros)
      ensures r.Skipped? ==> store.View() == old(store.View())
      ensures r.RolledBack? ==> RollbackStep(old(store.View()), store.View(), n, saved, store.zeros, fault.staged)
      ensures r.Stopped? ==> CrashedIn(s.tables, RowsOf(store.tables), n, saved)
    {
      hide Coherent, TableOk, Below, AllHandled, CacheKept, UpdatesFiled, CurrentOk, ReadOnce, Savable, BlockStep,
        Carries, CrashedIn, RollbackStep, NewArePended;
      ghost var mid := store.View();
      HandledIsSavable(updates, s.tables, effects);
      HandledCarries(updates, s.tables, effects);
      saved := ChangesIn(updates);
      assert forall x | x in updates :: store.tables[x].rows == s.tables[x];
      assert forall x | x in store.tables :: Below(store.tables[x].rows, n) by {
        assert forall x | x in store.tables :: store.tables[x].rows == s.tables[x];
      }
      r := store.BatchSave(n, updates, newCursor, fault, final, saved);
      if r.Saved? {
        BlockFromMid(s, mid, store.View(), n, saved, store.zeros, effects);
        BlockKeepsCoherent(s, store.View(), n, saved, store.zeros, effects);
      }
    }

    /** Every block starts with empty layers. */
    method Begin(ghost s: State)
      requires Configured() && store.Valid() && s == store.View()
      modifies this
      ensures Handling(s, map[], {}) && updates == map[] && began == |store.queried|
    {
      hide Store.Valid, CurrentAgrees, Handled;
      current, updates, began := map[], map[], |store.queried|;
    }

    /** Handles every squashed change on layers that start empty. */
    method HandleFromStart(changes: seq<TableChange>, n: nat, ghost s: State,
                           ghost rs: seq<Sq.Change>) returns (ok: bool)
      requires Configured() && store.Valid() && s == store.View() && rs == ValsOf(changes) && DistinctRows(rs)
      requires Coherent(s, store.zeros) && forall x | x in s.tables :: Below(s.tables[x], n)
      modifies this, store.persistentCache, store`queried
      ensures ok <==> forall r | r in rs :: CanApply(r, registry)
      ensures ok ==> Known(rs, s.tables, registry)
                     && var effects := Effects(s.tables, rs, registry); Handling(s, effects, effects.Keys)
      ensures ok ==> (forall e | e in AllEntities(updates) :: fresh(e)) && began == |old(store.queried)|
      ensures store.Valid() && FailedBlock(s, store.View(), rs, registry)
    {
      hide Coherent, Below, CanApply, Effects, Handling, KeepsCached, Store.Valid, NewAreLeft, FailedBlock;
      ghost var before := store.persistentCache.entityMap;
      Begin(s);
      ok := HandleAll(changes, n, s, rs);
      BlockFailed(s, before, store.persistentCache.entityMap, store.View(), rs, registry);
    }

    /** The part of ReturnHandler after the squash. */
    method HandleSquashed(changes: seq<TableChange>, n: nat, newCursor: string, fault: Fault, final: set<Key>,
                          ghost rs: seq<Sq.Change>) returns (r: Outcome, ghost saved: BlockChanges)
      requires Configured() && store.Valid() && rs == ValsOf(changes) && DistinctRows(rs)
      requires 0 < n && Coherent(store.View(), store.zeros)
               && forall x | x in store.tables :: Below(store.tables[x].rows, n)
      modifies this, store, store.persistentCache
      ensures if forall c | c in rs :: CanApply(c, registry)
              then Answers(fault, r) && Known(rs, old(store.View()).tables, registry)
                   && Carries(saved, Effects(old(store.View()).tables, rs, registry))
              else r.Rejected?
      ensures store.cursor == (if r.Saved? then newCursor else old(store.cursor)) && (!r.Stopped? ==> store.Valid())
      ensures r.Saved? ==> BlockStep(old(store.View()), store.View(), n, saved, store.zeros)
                           && Coherent(store.View(), store.zeros)
      ensures r.Saved? ==> ReadOnce(store.queried, |old(store.queried)|, current.Keys)
      ensures r.Rejected? || r.Skipped? ==> FailedBlock(old(store.View()), store.View(), rs, registry)
      ensures r.RolledBack? ==>
                FailedBatch(old(store.View()), store.View(), n, rs, saved, registry, store.zeros, fault.staged)
      ensures r.Stopped? ==> CrashedIn(old(store.View()).tables, RowsOf(store.tables), n, saved)
    {
      hide Coherent, Below, CanApply, TableOk, ReadOnce, BlockStep, CrashedIn, Carries, Effects, Handling, FailedBlock,
        RollbackStep;
      ghost var s := store.View();
      saved := map[];
      var ok := HandleFromStart(changes, n, s, rs);
      if !ok {
        return Rejected, saved;
      }
      ghost var effects, mid := Effects(s.tables, rs, registry), store.View();
      HandlingReadsOnce(s, effects, effects.Keys);
      r, saved := Flush(n, newCursor, fault, final, s, effects);
      assert r.RolledBack? ==> FailedBlock(s, mid, rs, registry);
    }

    lemma HandlingReadsOnce(s: State, effects: map<Key, Fields>, known: set<Key>)
      requires Handling(s, effects, known)
      ensures ReadOnce(store.queried, began, current.Keys)
    {
    }

    /** Squashes the changes of one block, applies each to its loaded row, and saves the block. It is
        rejected exactly when the changes do not squash or some squashed change cannot be applied;
        otherwise what the batch meets decides. */
    method ReturnHandler(changes: ChangeList, n: nat, newCursor: string, fault: Fault, final: set<Key>)
      returns (r: Outcome, ghost rs: seq<Sq.Change>, ghost saved: BlockChanges)
      requires Configured() && store.Valid() && NoRepeats(changes.tableChanges) && 0 < n
      requires Coherent(store.View(), store.zeros) && forall x | x in store.tables :: Below(store.tables[x].rows, n)
      modifies this, store, store.persistentCache, changes, changes.tableChanges
      ensures if Sq.SquashFails(old(ValsOf(changes.tableChanges))) then rs == []
              else Sq.Squashed(old(ValsOf(changes.tableChanges)), rs)
      ensures if Sq.SquashFails(old(ValsOf(changes.tableChanges))) || exists c :: c in rs && !CanApply(c, registry)
              then r.Rejected?
              else Answers(fault, r) && Known(rs, old(store.View()).tables, registry)
                   && Carries(saved, Effects(old(store.View()).tables, rs, registry))
      ensures store.cursor == (if r.Saved? then newCursor else old(store.cursor)) && (!r.Stopped? ==> store.Valid())
      ensures r.Saved? ==>
                HandledBlock(old(store.View()), store.View(), n, old(ValsOf(changes.tableChanges)), rs, saved, registry,
                             store.zeros)
      ensures r.Saved? ==> Coherent(store.View(), store.zeros)
      ensures r.Saved? ==> ReadOnce(store.queried, |old(store.queried)|, current.Keys)
      ensures r.Rejected? || r.Skipped? ==> FailedBlock(old(store.View()), store.View(), rs, registry)
      ensures r.RolledBack? ==>
                FailedBatch(old(store.View()), store.View(), n, rs, saved, registry, store.zeros, fault.staged)
      ensures r.Stopped? ==> CrashedIn(old(store.View()).tables, RowsOf(store.tables), n, saved)
    {
      hide Coherent, Below, CanApply, Sq.SquashFails, TableOk, ReadOnce, BlockStep, CrashedIn, Carries, Effects, Known,
        HandledBlock, FailedBlock, FailedBatch, Sq.StandsFor, Sq.Vanishes, Sq.Fails;
      ghost var s, cs := store.View(), ValsOf(changes.tableChanges);
      rs, saved := [], map[];
      var squashed := changes.Squash();
      if !squashed {
        NothingTried(s, registry);
        return Rejected, rs, saved;
      }
      rs := ValsOf(changes.tableChanges);
      r, saved := HandleSquashed(changes.tableChanges, n, newCursor, fault, final, rs);
      if r.Saved? {
        BlockIsHandled(s, store.View(), n, cs, rs, saved, registry, store.zeros);
      }
    }

    /** Fills a blank entity: pending updates first, then what this block read, then the store. */
    method Load(ent: Entity, n: nat) returns (ok: bool)
      requires Valid() && store.Valid() && ent.table in registry && Below(store.tables[ent.table].rows, n)
      requires ent.Val() == Blank(ent.FullKey(), store.zeros[ent.table])
      requires ent !in AllEntities(updates) && ent !in CurrentEntities(current)
      requires Updated(ent.FullKey()) || ent.FullKey() in current || CoherentFor(store.View(), ent.FullKey(),
               store.zeros)
      modifies this`current, this`updates, ent, store.persistentCache, store`queried
      ensures Valid() && store.Valid() && ent.FullKey() == old(ent.FullKey())
      ensures ok <==> ent.id != ""
      ensures ok && old(Updated(ent.FullKey())) ==>
                ent.Val() == old(PendingVal(updates[ent.table][ent.id], ent.Val()))
      ensures ok && !old(Updated(ent.FullKey())) ==>
                Agrees(store.tables[ent.table].rows, ent.FullKey(), ent.Val(), store.zeros[ent.table])
      ensures old(Updated(ent.FullKey())) || ent.FullKey() in old(current) ==> store.queried == old(store.queried)
      ensures SameExceptAt(old(store.View()).cache, store.View().cache, ent.FullKey())
      ensures ok && !old(Updated(ent.FullKey())) ==> current.Keys == old(current.Keys) + {ent.FullKey()}
      ensures ok && !old(Updated(ent.FullKey())) && ent.FullKey() !in old(current) ==> FiledIfNew(
                old(store.persistentCache.entityMap), store.persistentCache.entityMap, ent, ent.FullKey())
      ensures ent !in CurrentEntities(current)
      ensures ok ==> updates == if ent.table in old(updates) then old(updates) else old(updates)[ent.table := map[]]
      ensures !ok ==> updates == old(updates) && store.View() == old(store.View())
      ensures KeepsCached(old(store.persistentCache.entityMap), store.persistentCache.entityMap)
    {
      hide TableOk, Below, Agrees, UpdatesFiled, CurrentOk, ReadOnce, SameExceptAt, CoherentFor;
      if ent.id == "" {
        SameAsItself(store.View().cache, ent.FullKey());
        return false;
      }
      if ent.table !in updates {
        EmptyTable(updates, ent.table);
        updates := updates[ent.table := map[]];
      }
      LoadLayers(ent, n);
      ok := true;
    }

    method LoadLayers(ent: Entity, n: nat)
      requires Valid() && store.Valid() && ent.table in updates && ent.table in store.tables && ent.table in store.zeros
      requires ent.Val() == Blank(ent.FullKey(), store.zeros[ent.table]) && Below(store.tables[ent.table].rows, n)
      requires ent !in AllEntities(updates) && ent !in CurrentEntities(current)
      requires Updated(ent.FullKey()) || ent.FullKey() in current || CoherentFor(store.View(), ent.FullKey(),
               store.zeros)
      modifies this`current, ent, store.persistentCache, store`queried
      ensures Valid() && store.Valid() && ent.FullKey() == old(ent.FullKey())
      ensures Updated(ent.FullKey()) ==> ent.Val() == old(PendingVal(updates[ent.table][ent.id], ent.Val()))
      ensures !Updated(ent.FullKey()) ==>
                Agrees(store.tables[ent.table].rows, ent.FullKey(), ent.Val(), store.zeros[ent.table])
      ensures Updated(ent.FullKey()) || ent.FullKey() in old(current) ==> store.queried == old(store.queried)
      ensures SameExceptAt(old(store.View()).cache, store.View().cache, ent.FullKey())
      ensures !Updated(ent.FullKey()) ==> current.Keys == old(current.Keys) + {ent.FullKey()}
      ensures !Updated(ent.FullKey()) && ent.FullKey() !in old(current) ==> FiledIfNew(
                old(store.persistentCache.entityMap), store.persistentCache.entityMap, ent, ent.FullKey())
      ensures ent !in CurrentEntities(current)
      ensures KeepsCached(old(store.persistentCache.entityMap), store.persistentCache.entityMap)
    {
      hide Store.Valid, TableOk, Below, Agrees, UpdatesFiled, CurrentOk, CurrentAgrees, ReadOnce, SameExceptAt,
        CoherentFor;
      var k := ent.FullKey();
      if ent.id in updates[ent.table] {
        PendingIsFiled(updates, ent.table, ent.id);
        CopyFound(updates[ent.table][ent.id], ent);
      } else if k in current {
        CurrentIsOk(current, store.tables, k);
        CurrentGivesRow(store.tables[k.table].rows, k, current[k], store.zeros[k.table]);
        CopyFound(current[k], ent);
      } else {
        LoadUnknown(ent, n);
      }
    }

    /** The store layer, which adds the key to those this block has read. */
    method LoadUnknown(ent: Entity, n: nat)
      requires Valid() && store.Valid() && ent.table in store.tables && Below(store.tables[ent.table].rows, n)
      requires ent.Val() == Blank(ent.FullKey(), store.zeros[ent.table])
      requires ent !in AllEntities(updates) && ent !in CurrentEntities(current) && ent.FullKey() !in current
      requires CoherentFor(store.View(), ent.FullKey(), store.zeros)
      modifies this`current, ent, store.persistentCache, store`queried
      ensures Valid() && store.Valid() && ent.FullKey() == old(ent.FullKey())
      ensures Agrees(store.tables[ent.table].rows, ent.FullKey(), ent.Val(), store.zeros[ent.table])
      ensures SameExceptAt(old(store.View()).cache, store.View().cache, ent.FullKey())
      ensures current.Keys == old(current.Keys) + {ent.FullKey()} && ent !in CurrentEntities(current)
      ensures KeepsCached(old(store.persistentCache.entityMap), store.persistentCache.entityMap)
      ensures FiledIfNew(old(store.persistentCache.entityMap), store.persistentCache.entityMap, ent, ent.FullKey())
    {
      hide Store.Valid, TableOk, Below, Agrees, UpdatesFiled, CurrentOk, CurrentAgrees, ReadOnce, SameExceptAt,
        CoherentFor;
      ghost var k, before, log := ent.FullKey(), current, store.queried;
      LoadFromStore(ent, n);
      KnowOneMore(before, store.tables, k, current[k]);
      ReadOneMore(log, store.queried, began, before.Keys, k);
      assert current.Keys == before.Keys + {k};
    }

    /** A found entity is copied over the caller's; a null leaves it blank. */
    method CopyFound(found: Entity?, ent: Entity)
      requires store.Valid() && (found != null ==> found.FullKey() == ent.FullKey())
      modifies ent
      ensures store.Valid() && ent.FullKey() == old(ent.FullKey())
      ensures ent.Val() == old(PendingVal(found, ent.Val()))
      ensures SameExceptAt(old(store.View()).cache, store.View().cache, ent.FullKey())
    {
      if found != null {
        ent.CopyFrom(found);
      }
    }

    /** The last layer: asks the store and keeps a private copy of the answer. */
    method LoadFromStore(ent: Entity, n: nat)
      requires store.Valid() && ent.table in store.tables && Below(store.tables[ent.table].rows, n)
      requires ent.Val() == Blank(ent.FullKey(), store.zeros[ent.table])
      requires CoherentFor(store.View(), ent.FullKey(), store.zeros)
      modifies this`current, ent, store.persistentCache, store`queried
      ensures store.Valid() && ent.FullKey() == old(ent.FullKey())
      ensures Agrees(store.tables[ent.table].rows, ent.FullKey(), ent.Val(), store.zeros[ent.table])
      ensures store.queried == old(store.queried) || store.queried == old(store.queried) + [ent.FullKey()]
      ensures ent.FullKey() in current && current == old(current)[ent.FullKey() := current[ent.FullKey()]]
      ensures current[ent.FullKey()] != null ==> fresh(current[ent.FullKey()])
      ensures CurrentAgrees(store.tables[ent.table].rows, ent.FullKey(), current[ent.FullKey()])
      ensures SameExceptAt(old(store.View()).cache, store.View().cache, ent.FullKey())
      ensures KeepsCached(old(store.persistentCache.entityMap), store.persistentCache.entityMap)
      ensures FiledIfNew(old(store.persistentCache.entityMap), store.persistentCache.entityMap, ent, ent.FullKey())
    {
      hide Agrees, TableOk, Below;
      StoreLoad(ent, n);
      Remember(ent, store.tables[ent.table].rows);
    }

    /** Keeps a clone of an entity that exists, and null for one that does not. */
    method Remember(ent: Entity, ghost rows: VersionedRows.Rows)
      requires ent.table in store.zeros && Agrees(rows, ent.FullKey(), ent.Val(), store.zeros[ent.table])
      modifies this`current
      ensures ent.FullKey() in current && current == old(current)[ent.FullKey() := current[ent.FullKey()]]
      ensures current[ent.FullKey()] != null ==> fresh(current[ent.FullKey()])
      ensures CurrentAgrees(rows, ent.FullKey(), current[ent.FullKey()])
    {
      if ent.present {
        var clone := new Entity(ent.table, ent.id, map[]);
        clone.CopyFrom(ent);
        current := current[ent.FullKey() := clone];
      } else {
        current := current[ent.FullKey() := null];
      }
    }

    method StoreLoad(ent: Entity, n: nat)
      requires store.Valid() && ent.table in store.tables && Below(store.tables[ent.table].rows, n)
      requires ent.Val() == Blank(ent.FullKey(), store.zeros[ent.table])
      requires CoherentFor(store.View(), ent.FullKey(), store.zeros)
      modifies ent, store.persistentCache, store`queried
      ensures store.Valid() && ent.FullKey() == old(ent.FullKey())
      ensures Agrees(store.tables[ent.table].rows, ent.FullKey(), ent.Val(), store.zeros[ent.table])
      ensures store.queried == old(store.queried) || store.queried == old(store.queried) + [ent.FullKey()]
      ensures SameExceptAt(old(store.View()).cache, store.View().cache, ent.FullKey())
      ensures KeepsCached(old(store.persistentCache.entityMap), store.persistentCache.entityMap)
      ensures FiledIfNew(old(store.persistentCache.entityMap), store.persistentCache.entityMap, ent, ent.FullKey())
    {
      hide TableOk, Below, Agrees;
      ghost var k, s := ent.FullKey(), store.View();
      store.Load(ent, n);
      LoadAgrees(s, store.View(), k, store.zeros);
    }
  }

  lemma EmptyTable(updates: Updates, x: TableName)
    requires x !in updates && UpdatesFiled(updates)
    ensures AllEntities(updates[x := map[]]) == AllEntities(updates) && UpdatesFiled(updates[x := map[]])
  {
    NoNewEntities(updates, x);
  }

  lemma PendingIsFiled(updates: Updates, x: TableName, id: Id)
    requires UpdatesFiled(updates) && x in updates && id in updates[x]
    ensures updates[x][id] != null ==> updates[x][id].FullKey() == Key(x, id)
  {
  }

  lemma CurrentIsOk(current: map<Key, Entity?>, tables: map<TableName, Table>, k: Key)
    requires CurrentOk(current, tables) && k in current
    ensures k.table in tables && CurrentAgrees(tables[k.table].rows, k, current[k])
  {
  }

  lemma CurrentGivesRow(rows: VersionedRows.Rows, k: Key, e: Entity?, zero: Fields)
    requires CurrentAgrees(rows, k, e)
    ensures e == null ==> Agrees(rows, k, Blank(k, zero), zero)
    ensures e != null ==> e.FullKey() == k && Agrees(rows, k, e.Val(), zero)
  {
  }

  lemma KnowOneMore(current: map<Key, Entity?>, tables: map<TableName, Table>, k: Key, e: Entity?)
    requires CurrentOk(current, tables) && k !in current && k.table in tables
             && CurrentAgrees(tables[k.table].rows, k, e)
    ensures CurrentOk(current[k := e], tables)
  {
    hide CurrentAgrees;
    var more := current[k := e];
    forall j | j in more
      ensures more[j] != null ==> more[j] in CurrentEntities(more)
      ensures j.table in tables && CurrentAgrees(tables[j.table].rows, j, more[j])
    {
      assert j != k ==> j in current;
    }
  }

  lemma ReadOneMore(log: seq<Key>, log': seq<Key>, began: nat, known: set<Key>, k: Key)
    requires ReadOnce(log, began, known) && k !in known && (log' == log || log' == log + [k])
    ensures ReadOnce(log', began, known + {k})
  {
  }

  lemma LoadAgrees(s: State, t: State, k: Key, zeros: Zeros)
    requires LoadStep(s, t, k, zeros) && CoherentFor(s, k, zeros) && k in t.cache
    ensures Agrees(s.tables[k.table], k, t.cache[k], zeros[k.table]) && t.cache[k].key == k
    ensures SameExceptAt(s.cache, t.cache, k)
  {
  }

  ghost predicate UpdatesFiled(updates: Updates)
    reads AllEntities(updates)
  {
    forall x, id | x in updates && id in updates[x] && updates[x][id] != null ::
      updates[x][id] in AllEntities(updates) && updates[x][id].FullKey() == Key(x, id)
  }

  ghost predicate CurrentOk(current: map<Key, Entity?>, tables: map<TableName, Table>)
    reads CurrentEntities(current)
  {
    forall k | k in current ::
      (current[k] != null ==> current[k] in CurrentEntities(current)) && k.table in tables
      && CurrentAgrees(tables[k.table].rows, k, current[k])
  }

  /** What the loop of ApplyTableChange does to its invariant at column i. */
  lemma ReadOneMoreColumn(columns: seq<Column>, texts: Fields, fields: Fields, i: nat)
    requires i < |columns|
    ensures var c := columns[i];
            && Visited(columns[i..], texts)
               == (if Rejects(c, texts) then 1 else 1 + Visited(columns[i + 1..], texts))
            && fields + Readings(columns[..i + 1], texts)
               == (if c.kind.Reads? && c.name in texts
                   then (fields + Readings(columns[..i], texts))[c.name := c.kind.read(texts[c.name])]
                   else fields + Readings(columns[..i], texts))
            && (Rejects(c, texts) <==> c.name in texts && !c.Accepts(texts[c.name]))
  {
    assert columns[i..][1..] == columns[i + 1..] && columns[..i + 1][..i] == columns[..i];
  }

  /** What a change is applied to. */
  function Started(e: EntityVal, schema: Schema): Fields {
    if e.present then e.fields else e.fields + schema.defaults
  }

  ghost function EffectOf(tables: map<TableName, VersionedRows.Rows>, c: Sq.Change, registry: Registry): Fields
    requires c.table in tables && c.table in registry
  {
    Overwrite(registry[c.table].columns, BaseFields(tables[c.table], c.pk, registry[c.table]), Sq.AsMap(c.fields))
  }

  /** What a change that is rejected part way leaves in the entity. */
  ghost function PartialEffectOf(tables: map<TableName, VersionedRows.Rows>, c: Sq.Change, registry: Registry): Fields
    requires c.table in tables && c.table in registry
  {
    PartlyOverwrite(registry[c.table].columns, BaseFields(tables[c.table], c.pk, registry[c.table]), Sq.AsMap(c.fields))
  }

  /** The table is known, the id set, and no column rejects its new value. */
  predicate CanApply(c: Sq.Change, registry: Registry) {
    c.table in registry && c.pk != "" && Acceptable(registry[c.table].columns, Texts(c.fields))
  }

  lemma AgreesGivesBase(rows: VersionedRows.Rows, k: Key, e: EntityVal, schema: Schema)
    requires WellFormed(rows) && Agrees(rows, k, e, schema.zero)
    ensures AsLoaded(rows, e) && Started(e, schema) == BaseFields(rows, k.id, schema)
    ensures e.present <==> e.range.Some?
  {
    if e.present {
      LiveFieldsAre(rows, e.vid, k.id);
    }
  }

  lemma NotUpdated(updates: Updates, tables: map<TableName, VersionedRows.Rows>, effects: map<Key, Fields>, k: Key)
    requires AllHandled(updates, tables, effects) && k !in effects
    ensures !(k.table in updates && k.id in updates[k.table])
  {
  }

  lemma KeptIsCoherent(s: State, t: State, handled: set<Key>, k: Key, zeros: Zeros)
    requires Coherent(s, zeros) && t.tables == s.tables && CacheKept(s.cache, t.cache, handled) && k !in handled
    ensures CoherentFor(t, k, zeros)
  {
  }

  lemma KeepMore(c0: map<Key, EntityVal>, c1: map<Key, EntityVal>, c2: map<Key, EntityVal>, known: set<Key>, k: Key)
    requires CacheKept(c0, c1, known) && SameExceptAt(c1, c2, k)
    ensures CacheKept(c0, c2, known + {k})
  {
  }

  lemma KeepKnown(c0: map<Key, EntityVal>, c1: map<Key, EntityVal>, c2: map<Key, EntityVal>, known: set<Key>, k: Key)
    requires CacheKept(c0, c1, known) && k in known && SameExceptAt(c1, c2, k)
    ensures CacheKept(c0, c2, known)
  {
  }

  /** Load may add an empty table to the updates. */
  lemma HandledStill(updates: Updates, tables: map<TableName, VersionedRows.Rows>, effects: map<Key, Fields>,
                     x: TableName)
    requires AllHandled(updates, tables, effects) && x in tables
    ensures var after := if x in updates then updates else updates[x := map[]];
            AllHandled(after, tables, effects) && AllEntities(after) == AllEntities(updates)
  {
    hide Handled;
    if x !in updates {
      NoNewEntities(updates, x);
    }
  }

  lemma NoNewEntities(updates: Updates, x: TableName)
    requires x !in updates
    ensures AllEntities(updates[x := map[]]) == AllEntities(updates)
  {
    var after := updates[x := map[]];
    forall y, id | y in updates && id in updates[y] && updates[y][id] != null
      ensures updates[y][id] in AllEntities(after)
    {
      assert after[y] == updates[y];
    }
  }

  lemma TableIsWellFormed(t: Table)
    requires TableOk(t)
    ensures WellFormed(t.rows)
  {
  }

  function Filed(updates: Updates, ent: Entity): Updates
    reads ent
  {
    updates[ent.table := (if ent.table in updates then updates[ent.table] else map[])[ent.id := ent]]
  }

  lemma FiledAt(updates: Updates, ent: Entity, x: TableName, id: Id)
    ensures var after := Filed(updates, ent);
            && (Key(x, id) == ent.FullKey() ==> x in after && id in after[x] && after[x][id] == ent)
            && (Key(x, id) != ent.FullKey() ==>
                  && (x in updates ==> x in after)
                  && (x in updates && id in updates[x] <==> x in after && id in after[x])
                  && (x in updates && id in updates[x] ==> after[x][id] == updates[x][id]))
  {
  }

  lemma FiledEntities(before: Updates, ent: Entity)
    requires !(ent.table in before && ent.id in before[ent.table])
    ensures AllEntities(Filed(before, ent)) == AllEntities(before) + {ent}
  {
    hide Filed;
    var after := Filed(before, ent);
    FiledAt(before, ent, ent.table, ent.id);
    forall x, id | x in before && id in before[x] && before[x][id] != null
      ensures before[x][id] in AllEntities(after)
    {
      FiledAt(before, ent, x, id);
    }
    forall x, id | x in after && id in after[x] && after[x][id] != null
      ensures after[x][id] in AllEntities(before) + {ent}
    {
      FiledAt(before, ent, x, id);
    }
  }

  lemma PendOneMore(before: Updates, tables: map<TableName, VersionedRows.Rows>, effects: map<Key, Fields>, ent: Entity)
    requires AllHandled(before, tables, effects) && UpdatesFiled(before) && ent.FullKey() !in effects
    requires ent.table in tables && ent.present && AsLoaded(tables[ent.table], ent.Val())
    ensures AllHandled(Filed(before, ent), tables, effects[ent.FullKey() := ent.fields])
            && UpdatesFiled(Filed(before, ent))
    ensures AllEntities(Filed(before, ent)) == AllEntities(before) + {ent}
  {
    hide AsLoaded, Filed, Handled;
    var after: Updates, effects' := Filed(before, ent), effects[ent.FullKey() := ent.fields];
    FiledEntities(before, ent);
    PendedIsHandled(tables, ent);
    forall x, id | x in after && id in after[x]
      ensures Key(x, id) in effects'
      ensures after[x][id] != null ==> after[x][id] in AllEntities(after) && after[x][id].FullKey() == Key(x, id)
    {
      FiledAt(before, ent, x, id);
    }
    forall j | j in effects'
      ensures j.table in after && j.table in tables && j.id in after[j.table]
      ensures Handled(after[j.table][j.id], tables[j.table], j, effects'[j])
    {
      FiledAt(before, ent, j.table, j.id);
    }
  }

  lemma PendedIsHandled(tables: map<TableName, VersionedRows.Rows>, ent: Entity)
    requires ent.table in tables && ent.present && AsLoaded(tables[ent.table], ent.Val())
    ensures Handled(ent, tables[ent.table], ent.FullKey(), ent.fields)
  {
  }

  /** e is pending for key k with the fields f, and carries what the store says of k. */
  ghost predicate Handled(e: Entity?, rows: VersionedRows.Rows, k: Key, f: Fields)
    reads e
  {
    e != null && e.FullKey() == k && e.present && AsLoaded(rows, e.Val()) && e.fields == f
  }

  ghost predicate AllHandled(updates: Updates, tables: map<TableName, VersionedRows.Rows>, effects: map<Key, Fields>)
    reads AllEntities(updates)
  {
    && (forall k: Key | k.table in updates && k.id in updates[k.table] :: k in effects)
    && (forall k | k in effects ::
          && k.table in updates && k.table in tables && k.id in updates[k.table]
          && (updates[k.table][k.id] != null ==> updates[k.table][k.id] in AllEntities(updates))
          && Handled(updates[k.table][k.id], tables[k.table], k, effects[k]))
  }

  /** e carries what a load of its id gives, whatever its fields hold by now. */
  ghost predicate AsLoaded(rows: VersionedRows.Rows, e: EntityVal) {
    if e.range.Some?
    then IsCurrent(rows, e.key, e.(present := true, fields := if e.vid in rows then rows[e.vid].fields else e.fields))
    else (forall v :: !IsOpenRow(rows, v, e.key.id)) && e.vid == 0 && e.updated == 0
  }

  lemma LoadedIsFromStore(rows: VersionedRows.Rows, e: EntityVal)
    requires AsLoaded(rows, e)
    ensures FromStore(rows, e)
  {
  }

  lemma LoadedWhateverItHolds(rows: VersionedRows.Rows, e: EntityVal, e': EntityVal)
    requires AsLoaded(rows, e) && e' == e.(present := e'.present, fields := e'.fields)
    ensures AsLoaded(rows, e')
  {
  }

  /** e was loaded, overwritten with the fields f and marked as existing. */
  ghost predicate Pended(tables: map<TableName, VersionedRows.Rows>, k: Key, f: Fields, e: EntityVal) {
    k.table in tables && e.key == k && e.present && e.fields == f && AsLoaded(tables[k.table], e)
  }

  /** e was loaded and given its defaults for the change r, which one of its columns rejected. */
  ghost predicate Unapplied(tables: map<TableName, VersionedRows.Rows>, r: Sq.Change, e: EntityVal,
                            registry: Registry) {
    && r.table in tables && r.table in registry && e.key == KeyOf(r)
    && AsLoaded(tables[r.table], e) && (e.present <==> e.range.Some?)
    && e.fields == PartialEffectOf(tables, r, registry)
  }

  /** Every handled row is cached; one that was not cached before is cached as the pending entity. */
  ghost predicate NewArePended(s: State, cache: map<Key, EntityVal>, effects: map<Key, Fields>) {
    forall k | k in effects :: k in cache && (k !in s.cache ==> Pended(s.tables, k, effects[k], cache[k]))
  }

  /** Key k is cached, and by this entity if it was not cached before. */
  ghost predicate Shares(s: State, entries: map<Key, Entity>, ent: Entity, k: Key) {
    k in entries && (k !in s.cache ==> entries[k] == ent)
  }

  /** New in the cache are pending entities, and the one that the change r was loaded for but not applied to. */
  ghost predicate LeftBy(s: State, cache: map<Key, EntityVal>, effects: map<Key, Fields>, r: Sq.Change,
                         registry: Registry) {
    && (forall k | k in effects :: k in cache)
    && (r.table in registry && r.pk != "" ==> KeyOf(r) in cache)
    && (forall k | k in cache && k !in s.cache ::
          || (k in effects && Pended(s.tables, k, effects[k], cache[k]))
          || (k == KeyOf(r) && r.pk != "" && Unapplied(s.tables, r, cache[k], registry)))
  }

  lemma NothingLeft(s: State, cache: map<Key, EntityVal>, effects: map<Key, Fields>, r: Sq.Change, registry: Registry)
    requires CacheKept(s.cache, cache, effects.Keys) && NewArePended(s, cache, effects)
    requires r.table !in registry || r.pk == ""
    ensures LeftBy(s, cache, effects, r, registry)
  {
    hide Pended, Unapplied;
  }

  lemma StillPended(s: State, before: map<Key, EntityVal>, after: map<Key, EntityVal>, effects: map<Key, Fields>,
                    k: Key)
    requires NewArePended(s, before, effects) && SameExceptAt(before, after, k) && k !in effects
    ensures NewArePended(s, after, effects)
  {
    hide Pended;
  }

  lemma OneMorePended(s: State, before: map<Key, EntityVal>, after: map<Key, EntityVal>, effects: map<Key, Fields>,
                      e: EntityVal)
    requires NewArePended(s, before, effects) && SameExceptAt(before, after, e.key) && e.key.table in s.tables
    requires e.present && AsLoaded(s.tables[e.key.table], e)
    requires e.key in after && (e.key !in s.cache ==> after[e.key] == e)
    ensures NewArePended(s, after, effects[e.key := e.fields])
  {
    hide AsLoaded;
  }

  /** The load of a key the block had not read yet. */
  lemma NewIsShared(s: State, cached: map<Key, EntityVal>, before: map<Key, Entity>, after: map<Key, Entity>,
                    known: set<Key>, ent: Entity, k: Key)
    requires CacheKept(s.cache, cached, known) && k !in known && cached.Keys == before.Keys
    requires FiledIfNew(before, after, ent, k)
    ensures Shares(s, after, ent, k)
  {
  }

  /** Key k is cached, and by this pointer if it was not cached before. */
  ghost predicate FiledIfNew(before: map<Key, Entity>, after: map<Key, Entity>, ent: Entity, k: Key) {
    k in after && (k !in before ==> after[k] == ent)
  }

  ghost predicate CacheKept(before: map<Key, EntityVal>, after: map<Key, EntityVal>, handled: set<Key>) {
    forall j | j !in handled :: (j in before <==> j in after) && (j in before ==> after[j] == before[j])
  }

  function PendingVal(pending: Entity?, blank: EntityVal): EntityVal
    reads pending
  {
    if pending == null then blank else pending.Val()
  }

  ghost function CurrentEntities(current: map<Key, Entity?>): set<Entity> {
    set k | k in current && current[k] != null :: current[k]
  }

  /** What a private copy, or its absence, says is what the rows say. */
  ghost predicate CurrentAgrees(rows: VersionedRows.Rows, k: Key, e: Entity?)
    reads e
  {
    if e == null then forall v :: !IsOpenRow(rows, v, k.id)
    else e.FullKey() == k && e.present && IsCurrent(rows, k, e.Val())
  }

  /** The two caches agree on every other key. */
  ghost predicate SameExceptAt(before: map<Key, EntityVal>, after: map<Key, EntityVal>, k: Key) {
    forall j | j != k :: (j in before <==> j in after) && (j in before ==> after[j] == before[j])
  }

  /** What was cached still is, by the same pointers. */
  ghost predicate KeepsCached(before: map<Key, Entity>, after: map<Key, Entity>) {
    forall k | k in before :: k in after && after[k] == before[k]
  }

  lemma KeepsTwice(a: map<Key, Entity>, b: map<Key, Entity>, c: map<Key, Entity>)
    requires KeepsCached(a, b) && KeepsCached(b, c)
    ensures KeepsCached(a, c)
  {
  }

  lemma KeepsItself(m: map<Key, Entity>)
    ensures KeepsCached(m, m)
  {
  }

  lemma SameAsItself(cache: map<Key, EntityVal>, k: Key)
    ensures SameExceptAt(cache, cache, k)
  {
  }

  ghost predicate CoherentFor(s: State, k: Key, zeros: Zeros) {
    k in s.cache ==> CoherentAt(s, k, zeros)
  }

  /** The keys queried since the block began are distinct and remembered. */
  ghost predicate ReadOnce(queried: seq<Key>, began: nat, known: set<Key>) {
    && began <= |queried|
    && (forall i | began <= i < |queried| :: queried[i] in known)
    && (forall i, j | began <= i < j < |queried| :: queried[i] != queried[j])
  }

  ghost predicate DistinctRows(rs: seq<Sq.Change>) {
    forall i, j | 0 <= i < j < |rs| :: rs[i].RowKey() != rs[j].RowKey()
  }

  ghost predicate Known(rs: seq<Sq.Change>, tables: map<TableName, VersionedRows.Rows>, registry: Registry) {
    forall r | r in rs :: r.table in tables && r.table in registry
  }

  lemma RowNotYetHandled(rs: seq<Sq.Change>, i: nat, tables: map<TableName, VersionedRows.Rows>, registry: Registry)
    requires i < |rs| && DistinctRows(rs) && Known(rs[..i], tables, registry)
    ensures KeyOf(rs[i]) !in Effects(tables, rs[..i], registry)
  {
    EffectKeys(tables, rs[..i], registry, KeyOf(rs[i]));
    forall r | r in rs[..i]
      ensures KeyOf(r) != KeyOf(rs[i])
    {
      var j :| 0 <= j < i && rs[j] == r;
      assert rs[j].RowKey() != rs[i].RowKey();
    }
  }

  lemma ApplyOneMore(rs: seq<Sq.Change>, i: nat, tables: map<TableName, VersionedRows.Rows>, registry: Registry)
    requires i < |rs| && Known(rs[..i], tables, registry) && rs[i].table in tables && rs[i].table in registry
    ensures Known(rs[..i + 1], tables, registry)
    ensures Effects(tables, rs[..i + 1], registry)
            == Effects(tables, rs[..i], registry)[KeyOf(rs[i]) := EffectOf(tables, rs[i], registry)]
    ensures Effects(tables, rs[..i + 1], registry).Keys == Effects(tables, rs[..i], registry).Keys + {KeyOf(rs[i])}
    ensures rs[..i + 1] == rs[..i] + [rs[i]]
  {
    var more := rs[..i + 1];
    assert more[..i] == rs[..i] && more == rs[..i] + [rs[i]];
  }

  // ---------------------------------------------------------------------
  // Saving the block
  // ---------------------------------------------------------------------

  /** What the block left of row r in a cache that did not hold it: the loaded entity or its
      defaults, overwritten, up to a column that rejects the change. */
  ghost predicate Leftover(tables: map<TableName, VersionedRows.Rows>, r: Sq.Change, e: EntityVal, registry: Registry) {
    && r.table in tables && r.table in registry
    && if CanApply(r, registry)
       then Pended(tables, KeyOf(r), EffectOf(tables, r, registry), e)
       else Unapplied(tables, r, e, registry)
  }

  /** The block came as far as loading the row of its j-th change. */
  ghost predicate Tried(rs: seq<Sq.Change>, j: int, registry: Registry) {
    && 0 <= j < |rs| && rs[j].table in registry && rs[j].pk != ""
    && forall i | 0 <= i < j :: CanApply(rs[i], registry)
  }

  /** Each row the block loaded is cached, and nothing else is new. */
  ghost predicate NewAreLeft(s: State, cache: map<Key, EntityVal>, rs: seq<Sq.Change>, registry: Registry) {
    && (forall j | Tried(rs, j, registry) :: KeyOf(rs[j]) in cache)
    && (forall k | k in cache && k !in s.cache ::
          exists j :: Tried(rs, j, registry) && KeyOf(rs[j]) == k && Leftover(s.tables, rs[j], cache[k], registry))
  }

  /** The changes before the i-th one were pended, the i-th one was not applied. */
  lemma LeftOfPrefix(s: State, cache: map<Key, EntityVal>, rs: seq<Sq.Change>, i: nat, registry: Registry)
    requires i < |rs| && DistinctRows(rs) && Known(rs[..i], s.tables, registry) && !CanApply(rs[i], registry)
    requires forall r | r in rs[..i] :: CanApply(r, registry)
    requires LeftBy(s, cache, Effects(s.tables, rs[..i], registry), rs[i], registry)
    ensures NewAreLeft(s, cache, rs, registry)
  {
    hide Pended, Unapplied, CanApply, EffectOf, Leftover, Effects, DistinctRows, Known;
    forall j | Tried(rs, j, registry)
      ensures KeyOf(rs[j]) in cache
    {
      if j < i {
        EffectIs(s.tables, rs, i, j, registry);
      }
    }
    forall k | k in cache && k !in s.cache
      ensures exists j :: Tried(rs, j, registry) && KeyOf(rs[j]) == k && Leftover(s.tables, rs[j], cache[k], registry)
    {
      var j := LeftoverOfPrefix(s, cache, rs, i, registry, k);
    }
  }

  lemma LeftoverOfPrefix(s: State, cache: map<Key, EntityVal>, rs: seq<Sq.Change>, i: nat, registry: Registry, k: Key)
    returns (j: int)
    requires i < |rs| && DistinctRows(rs) && Known(rs[..i], s.tables, registry) && !CanApply(rs[i], registry)
    requires forall r | r in rs[..i] :: CanApply(r, registry)
    requires LeftBy(s, cache, Effects(s.tables, rs[..i], registry), rs[i], registry) && k in cache && k !in s.cache
    ensures Tried(rs, j, registry) && KeyOf(rs[j]) == k && Leftover(s.tables, rs[j], cache[k], registry)
  {
    hide Pended, EffectOf, AsLoaded, Effects, DistinctRows, BaseFields;
    var effects := Effects(s.tables, rs[..i], registry);
    assert forall l | 0 <= l < i :: rs[l] == rs[..i][l] && CanApply(rs[..i][l], registry);
    if k in effects && Pended(s.tables, k, effects[k], cache[k]) {
      EffectKeys(s.tables, rs[..i], registry, k);
      var r :| r in rs[..i] && KeyOf(r) == k;
      j :| 0 <= j < i && rs[..i][j] == r;
      EffectIs(s.tables, rs, i, j, registry);
    } else {
      j := i;
    }
  }

  lemma EffectIs(tables: map<TableName, VersionedRows.Rows>, rs: seq<Sq.Change>, i: nat, j: nat, registry: Registry)
    requires j < i <= |rs| && DistinctRows(rs) && Known(rs[..i], tables, registry)
    ensures rs[j].table in tables && rs[j].table in registry && KeyOf(rs[j]) in Effects(tables, rs[..i], registry)
    ensures Effects(tables, rs[..i], registry)[KeyOf(rs[j])] == EffectOf(tables, rs[j], registry)
  {
    hide BaseFields, Overwrite;
    assert rs[..i][j] == rs[j];
    EffectAt(tables, rs[..i], registry, rs[j]);
  }

  lemma AllTried(rs: seq<Sq.Change>, registry: Registry)
    requires forall r | r in rs :: CanApply(r, registry)
    ensures forall j | 0 <= j < |rs| :: Tried(rs, j, registry)
  {
    assert forall j | 0 <= j < |rs| :: rs[j] in rs;
  }

  /** Every change was pended. */
  lemma LeftOfAll(s: State, cache: map<Key, EntityVal>, rs: seq<Sq.Change>, registry: Registry)
    requires DistinctRows(rs) && Known(rs, s.tables, registry) && forall r | r in rs :: CanApply(r, registry)
    requires var effects := Effects(s.tables, rs, registry);
             NewArePended(s, cache, effects) && CacheKept(s.cache, cache, effects.Keys)
    ensures NewAreLeft(s, cache, rs, registry)
  {
    hide Pended, EffectOf, Effects, DistinctRows, CanApply;
    var effects := Effects(s.tables, rs, registry);
    assert rs[..|rs|] == rs && effects == Effects(s.tables, rs[..|rs|], registry);
    forall j | 0 <= j < |rs|
      ensures KeyOf(rs[j]) in effects && effects[KeyOf(rs[j])] == EffectOf(s.tables, rs[j], registry)
    {
      EffectIs(s.tables, rs, |rs|, j, registry);
    }
    AllTried(rs, registry);
    forall k | k in cache && k !in s.cache
      ensures exists j :: Tried(rs, j, registry) && KeyOf(rs[j]) == k && Leftover(s.tables, rs[j], cache[k], registry)
    {
      EffectKeys(s.tables, rs, registry, k);
      var r :| r in rs && KeyOf(r) == k;
      var j :| 0 <= j < |rs| && rs[j] == r;
      assert Leftover(s.tables, rs[j], cache[k], registry);
    }
  }

  /** A block whose batch was rolled back: what handling it left, then what the batch wrote. */
  ghost predicate FailedBatch(s: State, t: State, n: nat, rs: seq<Sq.Change>, saved: BlockChanges, registry: Registry,
                              zeros: Zeros, ran: set<TableName>) {
    exists mid :: FailedBlock(s, mid, rs, registry) && RollbackStep(mid, t, n, saved, zeros, ran)
  }

  /** A block that was not saved: tables and older cache entries are as they
      were, and the new entries are left over from rows it tried to change. */
  ghost predicate FailedBlock(s: State, t: State, rs: seq<Sq.Change>, registry: Registry) {
    && t.tables == s.tables
    && (forall k | k in s.cache :: k in t.cache && t.cache[k] == s.cache[k])
    && NewAreLeft(s, t.cache, rs, registry)
  }

  /** Changes that do not squash leave the store as it is. */
  lemma NothingTried(s: State, registry: Registry)
    ensures FailedBlock(s, s, [], registry)
  {
  }

  lemma BlockFailed(s: State, before: map<Key, Entity>, after: map<Key, Entity>, t: State, rs: seq<Sq.Change>,
                    registry: Registry)
    requires s.cache.Keys == before.Keys && forall k | k in before :: before[k].Val() == s.cache[k]
    requires t == State(s.tables, ValsIn(after)) && KeepsCached(before, after)
    requires NewAreLeft(s, t.cache, rs, registry)
    ensures FailedBlock(s, t, rs, registry)
  {
    hide NewAreLeft;
  }

  /** What the change r makes of the live row of its id, up to a column that rejects it, is that row;
      for an id without one, a change that is rejected leaves the zero value. */
  ghost predicate ChangesNothing(tables: map<TableName, VersionedRows.Rows>, r: Sq.Change, registry: Registry)
    requires r.table in tables && r.table in registry
  {
    var live := LiveFields(tables[r.table], r.pk);
    if CanApply(r, registry) then live == Some(EffectOf(tables, r, registry))
    else PartialEffectOf(tables, r, registry) == if live.Some? then live.value else registry[r.table].zero
  }

  /** What a failed block left in the cache agrees with its row exactly when the change would have
      changed nothing. */
  lemma LeftoverAgreesIff(tables: map<TableName, VersionedRows.Rows>, r: Sq.Change, e: EntityVal, registry: Registry)
    requires Leftover(tables, r, e, registry) && WellFormed(tables[r.table])
    ensures Agrees(tables[r.table], KeyOf(r), e, registry[r.table].zero) <==> ChangesNothing(tables, r, registry)
  {
    hide WellFormed, Overwrite;
    var rows := tables[r.table];
    if e.range.Some? {
      LiveFieldsAre(rows, e.vid, r.pk);
    } else {
      assert LiveFields(rows, r.pk) == None;
    }
  }

  /** So a failed block keeps a coherent cache coherent exactly when each row that it loaded, and that
      was not cached, is one that its change would have left as it is; nothing invalidates the others. */
  lemma FailedBlockCoherentIff(s: State, t: State, rs: seq<Sq.Change>, registry: Registry, zeros: Zeros)
    requires FailedBlock(s, t, rs, registry) && Coherent(s, zeros) && DistinctRows(rs)
    requires forall x | x in s.tables :: WellFormed(s.tables[x])
    requires forall x | x in registry :: x in s.tables && x in zeros && zeros[x] == registry[x].zero
    ensures Coherent(t, zeros) <==>
            forall j | Tried(rs, j, registry) && KeyOf(rs[j]) !in s.cache :: ChangesNothing(s.tables, rs[j], registry)
  {
    hide WellFormed, Agrees, ChangesNothing, Leftover;
    forall k | k in s.cache
      ensures k in t.cache && CoherentAt(t, k, zeros)
    {
      assert CoherentAt(s, k, zeros);
    }
    forall j | Tried(rs, j, registry) && KeyOf(rs[j]) !in s.cache
      ensures KeyOf(rs[j]) in t.cache
      ensures CoherentAt(t, KeyOf(rs[j]), zeros) <==> ChangesNothing(s.tables, rs[j], registry)
    {
      TriedIsLeftover(s, t, rs, registry, j);
      LeftoverAgreesIff(s.tables, rs[j], t.cache[KeyOf(rs[j])], registry);
    }
    assert forall k | k in t.cache && k !in s.cache :: exists j :: Tried(rs, j, registry) && KeyOf(rs[j]) == k;
  }

  lemma TriedIsLeftover(s: State, t: State, rs: seq<Sq.Change>, registry: Registry, j: int)
    requires FailedBlock(s, t, rs, registry) && DistinctRows(rs) && Tried(rs, j, registry) && KeyOf(rs[j]) !in s.cache
    ensures KeyOf(rs[j]) in t.cache && Leftover(s.tables, rs[j], t.cache[KeyOf(rs[j])], registry)
  {
    hide CanApply, Leftover;
    var k := KeyOf(rs[j]);
    var i :| Tried(rs, i, registry) && KeyOf(rs[i]) == k && Leftover(s.tables, rs[i], t.cache[k], registry);
    assert rs[i].RowKey() == rs[j].RowKey();
  }

  /** When every row that the block loaded was cached before, a failure leaves the cache as it was. */
  lemma FailedBlockKeepsCache(s: State, t: State, rs: seq<Sq.Change>, registry: Registry, zeros: Zeros)
    requires FailedBlock(s, t, rs, registry) && forall j | Tried(rs, j, registry) :: KeyOf(rs[j]) in s.cache
    ensures t == s && (Coherent(s, zeros) ==> Coherent(t, zeros))
  {
    hide Leftover, Coherent;
  }

  /** What a handled block did: it saved the effects of the squashed changes, and
      every live row is the old one, or the defaults, overwritten by every raw
      change to it in ordinal order. */
  ghost predicate HandledBlock(s: State, t: State, n: nat, cs: seq<Sq.Change>, rs: seq<Sq.Change>, saved: BlockChanges,
                               registry: Registry, zeros: Zeros) {
    && Sq.Squashed(cs, rs) && Known(rs, s.tables, registry)
    && Carries(saved, Effects(s.tables, rs, registry)) && BlockStep(s, t, n, saved, zeros)
    && (CreatesAndUpdates(cs) ==> Sequential(s.tables, t.tables, cs, registry))
  }

  ghost predicate Sequential(before: map<TableName, VersionedRows.Rows>, after: map<TableName, VersionedRows.Rows>,
                             cs: seq<Sq.Change>, registry: Registry) {
    forall run, k: Key | Sq.SortOf(cs, run) && k.table in before && k.table in registry ::
      && k.table in after
      && LiveFields(after[k.table], k.id) ==
         if Raw(run, k) == [] then LiveFields(before[k.table], k.id)
         else Some(OverwriteAll(registry[k.table].columns, BaseFields(before[k.table], k.id, registry[k.table]),
                                Raw(run, k)))
  }

  lemma BlockIsHandled(s: State, t: State, n: nat, cs: seq<Sq.Change>, rs: seq<Sq.Change>, saved: BlockChanges,
                       registry: Registry, zeros: Zeros)
    requires 0 < n && Sq.Squashed(cs, rs) && Known(rs, s.tables, registry)
    requires Carries(saved, Effects(s.tables, rs, registry)) && BlockStep(s, t, n, saved, zeros)
    ensures HandledBlock(s, t, n, cs, rs, saved, registry, zeros)
  {
    hide Sq.Squashed, Known, CreatesAndUpdates, Effects, Carries, BlockStep, Sequential;
    if CreatesAndUpdates(cs) {
      HandledIsSequential(s, t, n, cs, rs, saved, registry, zeros);
    }
  }

  lemma HandledIsSequential(s: State, t: State, n: nat, cs: seq<Sq.Change>, rs: seq<Sq.Change>, saved: BlockChanges,
                            registry: Registry, zeros: Zeros)
    requires 0 < n && Sq.Squashed(cs, rs) && Known(rs, s.tables, registry) && CreatesAndUpdates(cs)
    requires Carries(saved, Effects(s.tables, rs, registry)) && BlockStep(s, t, n, saved, zeros)
    ensures Sequential(s.tables, t.tables, cs, registry)
  {
    hide Sq.Squashed, Sq.SortOf, CreatesAndUpdates, Effects, Carries, BlockStep, Raw, OverwriteAll, BaseFields,
      LiveFields;
    forall run, k: Key | Sq.SortOf(cs, run) && k.table in s.tables && k.table in registry
      ensures k.table in t.tables
      ensures LiveFields(t.tables[k.table], k.id) ==
              if Raw(run, k) == [] then LiveFields(s.tables[k.table], k.id)
              else Some(OverwriteAll(registry[k.table].columns,
                                     BaseFields(s.tables[k.table], k.id, registry[k.table]), Raw(run, k)))
    {
      BlockRefinesSequential(s, t, n, cs, run, rs, saved, registry, zeros, k);
    }
  }

  lemma PendingIsHandled(updates: Updates, tables: map<TableName, VersionedRows.Rows>, effects: map<Key, Fields>,
                         x: TableName, id: Id)
    requires AllHandled(updates, tables, effects) && x in updates && id in updates[x]
    ensures Key(x, id) in effects && x in tables
    ensures Handled(updates[x][id], tables[x], Key(x, id), effects[Key(x, id)])
  {
    hide AsLoaded;
    assert Key(x, id).table in updates && Key(x, id).id in updates[Key(x, id).table];
  }

  /** The pending entities are what BatchSave asks for. */
  lemma HandledIsSavable(updates: Updates, tables: map<TableName, VersionedRows.Rows>, effects: map<Key, Fields>)
    requires AllHandled(updates, tables, effects) && updates.Keys <= tables.Keys
    ensures OfOwnTable(updates) && forall x | x in updates :: Savable(tables[x], updates[x], x)
  {
    hide AsLoaded, FromStore, AllHandled;
    forall x, id | x in updates && id in updates[x]
      ensures Key(x, id) in effects && Handled(updates[x][id], tables[x], Key(x, id), effects[Key(x, id)])
      ensures FromStore(tables[x], updates[x][id].Val())
    {
      PendingIsHandled(updates, tables, effects, x, id);
      LoadedIsFromStore(tables[x], updates[x][id].Val());
    }
  }

  lemma ChangeOfHandled(updates: Updates, tables: map<TableName, VersionedRows.Rows>, effects: map<Key, Fields>,
                        x: TableName, id: Id)
    requires AllHandled(updates, tables, effects) && x in updates && id in updates[x]
    ensures Key(x, id) in effects && ChangesIn(updates)[x][id] == Some(effects[Key(x, id)])
  {
    hide AsLoaded, AllHandled;
    PendingIsHandled(updates, tables, effects, x, id);
  }

  lemma ChangesAreUpdates(updates: Updates)
    ensures ChangesIn(updates).Keys == updates.Keys
    ensures forall x | x in updates :: ChangesIn(updates)[x].Keys == updates[x].Keys
  {
  }

  lemma EffectsArePending(updates: Updates, tables: map<TableName, VersionedRows.Rows>, effects: map<Key, Fields>,
                          k: Key)
    requires AllHandled(updates, tables, effects) && k in effects
    ensures k.table in updates && k.id in updates[k.table]
  {
    hide Handled;
  }

  /** They carry the effects. */
  lemma HandledCarries(updates: Updates, tables: map<TableName, VersionedRows.Rows>, effects: map<Key, Fields>)
    requires AllHandled(updates, tables, effects)
    ensures Carries(ChangesIn(updates), effects)
  {
    hide AllHandled, ChangesIn;
    ChangesAreUpdates(updates);
    var changes := ChangesIn(updates);
    forall k: Key
      ensures Saves(changes, k) <==> k in effects
      ensures !Deletes(changes, k)
      ensures k in effects ==> changes[k.table][k.id] == Some(effects[k])
    {
      if k.table in changes && k.id in changes[k.table] {
        ChangeOfHandled(updates, tables, effects, k.table, k.id);
        assert k == Key(k.table, k.id);
      }
      if k in effects {
        EffectsArePending(updates, tables, effects, k);
      }
    }
  }

  /** What the block loaded before saving changes no entry of the keys it did not save. */
  lemma BlockFromMid(s: State, mid: State, t: State, n: nat, saved: BlockChanges, zeros: Zeros,
                     effects: map<Key, Fields>)
    requires mid.tables == s.tables && CacheKept(s.cache, mid.cache, effects.Keys) && Carries(saved, effects)
    requires BlockStep(mid, t, n, saved, zeros)
    ensures BlockStep(s, t, n, saved, zeros)
  {
    hide SavedAs, IsCurrent, Agrees;
    forall k | k in t.cache
      ensures EntryAfterBlock(s, t, saved, zeros, k)
    {
      assert EntryAfterBlock(mid, t, saved, zeros, k);
    }
  }

  lemma BlockKeepsCoherent(s: State, t: State, n: nat, saved: BlockChanges, zeros: Zeros, effects: map<Key, Fields>)
    requires Coherent(s, zeros) && BlockStep(s, t, n, saved, zeros) && Carries(saved, effects)
    ensures Coherent(t, zeros)
  {
    hide Coherent, BlockStep;
    BlockKeepsCoherentIff(s, t, n, saved, zeros);
  }
}
