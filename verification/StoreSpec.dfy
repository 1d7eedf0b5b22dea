/**
 The store as a state machine: tables, cache and cursor, and what each
 operation does to them. The theorems are about every run of the machine.
 */
module StoreSpec {
  import opened Prelude
  import opened BlockRanges
  import opened VersionedRows
  import opened History
  import opened EntityCaches

  /** Per table, the zero value of its entity type. */
  type Zeros = map<TableName, Fields>

  type BlockChanges = map<TableName, Changes>

  datatype State = State(tables: map<TableName, Rows>, cache: map<Key, EntityVal>)

  // ---------------------------------------------------------------------
  // What a row looks like once scanned into an entity
  // ---------------------------------------------------------------------

  /** The text PostgreSQL prints for a non-empty range. */
  function RangeText(r: Int4Range): string
    requires r.Span?
  {
    "[" + Decimal(r.lower) + "," + (if r.upper.Some? then Decimal(r.upper.value) else "") + ")"
  }

  /** The bounds an entity holds after a scan; only the start of a closed range survives. */
  function Scanned(r: Int4Range): Bounds
    requires r.Span?
  {
    Bounds(r.lower, if r.upper.Some? then r.lower else 0)
  }

  /** The scan is the codec applied to the printed range. */
  lemma ScannedIsParsed(r: Int4Range)
    requires r.Span? && 0 < r.lower < 0x1_0000_0000_0000_0000
    requires r.upper.Some? ==> r.lower < r.upper.value < 0x1_0000_0000_0000_0000
    ensures Parsed(Bounds(0, 0), RangeText(r)) == (Scanned(r), Returned(()))
  {
    var b := Bounds(r.lower, if r.upper.Some? then r.upper.value else 0);
    assert Printed(b) == Returned(RangeText(r));
    ParsePrinted(Bounds(0, 0), b);
  }

  function Loaded(table: TableName, v: Vid, r: Row): EntityVal
    requires r.range.Span?
  {
    EntityVal(Key(table, r.id), v, Some(Scanned(r.range)), r.updated, true, r.fields)
  }

  // ---------------------------------------------------------------------
  // Cache coherence
  // ---------------------------------------------------------------------

  ghost predicate IsOpenRow(rows: Rows, v: Vid, id: Id) {
    v in rows && rows[v].id == id && rows[v].range.Open()
  }

  /** e is what a query of the open row of k gives. */
  ghost predicate IsCurrent(rows: Rows, k: Key, e: EntityVal) {
    IsOpenRow(rows, e.vid, k.id) && e == Loaded(k.table, e.vid, rows[e.vid])
  }

  /** e is what a query of the open row of k gives, or the blank entity when there is none. */
  ghost predicate Agrees(rows: Rows, k: Key, e: EntityVal, zero: Fields) {
    if e.present
    then IsCurrent(rows, k, e)
    else (forall v :: !IsOpenRow(rows, v, k.id)) && e == Blank(k, zero)
  }

  ghost predicate CoherentAt(s: State, k: Key, zeros: Zeros)
    requires k in s.cache
  {
    k.table in s.tables && k.table in zeros && Agrees(s.tables[k.table], k, s.cache[k], zeros[k.table])
  }

  ghost predicate Coherent(s: State, zeros: Zeros) {
    forall k | k in s.cache :: CoherentAt(s, k, zeros)
  }

  /** There is one right answer, so a coherent cache answers as the query would. */
  lemma AgreesIsUnique(rows: Rows, k: Key, e: EntityVal, f: EntityVal, zero: Fields)
    requires WellFormed(rows) && Agrees(rows, k, e, zero) && Agrees(rows, k, f, zero)
    ensures e == f
  {
    if e.present && f.present {
      assert e.vid == f.vid || Disjoint(rows[e.vid].range, rows[f.vid].range);
    }
  }

  // ---------------------------------------------------------------------
  // Steps
  // ---------------------------------------------------------------------

  /** after is one of the tables that saving the changes at block n can give. */
  ghost predicate SavedAs(rows: Rows, after: Rows, n: nat, changes: Changes) {
    && WellFormed(rows) && Below(rows, n)
    && exists vids :: Assigns(rows, changes, vids) && after == SaveRows(rows, n, changes, vids)
  }

  ghost predicate Saves(changes: BlockChanges, k: Key) {
    k.table in changes && Live(changes[k.table], k.id)
  }

  ghost predicate Deletes(changes: BlockChanges, k: Key) {
    k.table in changes && k.id in changes[k.table] && changes[k.table][k.id].None?
  }

  function ChangesOf(changes: BlockChanges, t: TableName): Changes {
    if t in changes then changes[t] else map[]
  }

  /** An entry the block left behind: saved by it, loaded during it, or older than it. */
  ghost predicate EntryAfterBlock(s: State, t: State, changes: BlockChanges, zeros: Zeros, k: Key)
    requires k in t.cache && t.tables.Keys == s.tables.Keys
  {
    && k.table in s.tables && k.table in zeros
    && if Saves(changes, k)
       then IsCurrent(t.tables[k.table], k, t.cache[k])
       else || (k in s.cache && t.cache[k] == s.cache[k])
            || Agrees(s.tables[k.table], k, t.cache[k], zeros[k.table])
  }

  /** A successful block: loads through the cache, a batch save, perhaps a purge. */
  ghost predicate BlockStep(s: State, t: State, n: nat, changes: BlockChanges, zeros: Zeros) {
    && changes.Keys <= s.tables.Keys && t.tables.Keys == s.tables.Keys
    && (forall x | x in s.tables :: SavedAs(s.tables[x], t.tables[x], n, ChangesOf(changes, x)))
    && (forall k | k in t.cache :: EntryAfterBlock(s, t, changes, zeros, k))
  }

  /** A batch save on its own: what it does not save stays cached as it was, what
      it saves is cached as saved, and purged keys are gone. */
  ghost predicate SaveStep(s: State, t: State, n: nat, changes: BlockChanges, zeros: Zeros, purged: set<Key>) {
    && BlockStep(s, t, n, changes, zeros)
    && (forall k :: k in t.cache <==> (k in s.cache || Saves(changes, k)) && k !in purged)
    && (forall k | k in s.cache && k in t.cache && !Saves(changes, k) :: t.cache[k] == s.cache[k])
  }

  ghost predicate ReturnedKey(s: State, b: nat, k: Key) {
    k.table in s.tables && ReturnedByFork(s.tables[k.table], b, k.id)
  }

  ghost predicate ForkStep(s: State, t: State, b: nat) {
    && t.tables == (map x | x in s.tables :: ForkRows(s.tables[x], b))
    && t.cache == map k | k in s.cache && !ReturnedKey(s, b, k) :: s.cache[k]
  }

  ghost predicate LoadStep(s: State, t: State, k: Key, zeros: Zeros) {
    && t.tables == s.tables
    && k.table in s.tables && k.table in zeros
    && if k in s.cache then t.cache == s.cache
       else && k in t.cache && t.cache == s.cache[k := t.cache[k]]
            && Agrees(s.tables[k.table], k, t.cache[k], zeros[k.table])
  }

  ghost predicate PurgeStep(s: State, t: State, final: set<Key>) {
    t.tables == s.tables && t.cache == s.cache - final
  }

  /** Table x after a crash in the save of block n: some statements ran, or none. */
  ghost predicate LeftByCrash(rows: Rows, left: Rows, n: nat, changes: Changes) {
    && WellFormed(rows) && Below(rows, n)
    && exists vids :: Assigns(rows, changes, vids) && PartlySaved(rows, left, n, changes, vids)
  }

  /** A crash in block n + 1, a restart with an empty cache, and one CleanDataAtBlock(n). */
  ghost predicate CrashStep(s: State, t: State, n: nat, changes: BlockChanges) {
    && t.cache == map[]
    && t.tables.Keys == s.tables.Keys
    && forall x | x in s.tables :: RecoveredAs(s.tables[x], t.tables[x], n, ChangesOf(changes, x))
  }

  ghost predicate RecoveredAs(rows: Rows, back: Rows, n: nat, changes: Changes) {
    exists left :: LeftByCrash(rows, left, n + 1, changes) && back == RecoverRows(left, n)
  }

  // ---------------------------------------------------------------------
  // Each step keeps the cache coherent
  // ---------------------------------------------------------------------

  lemma SavedIsWellFormed(rows: Rows, after: Rows, n: nat, changes: Changes)
    requires SavedAs(rows, after, n, changes) && 0 < n
    ensures WellFormed(after)
  {
    var vids :| Assigns(rows, changes, vids) && after == SaveRows(rows, n, changes, vids);
    SaveWellFormed(rows, n, changes, vids);
  }

  /** A save leaves the open rows of the ids it does not touch alone. */
  lemma SaveKeepsOpenRow(rows: Rows, after: Rows, n: nat, changes: Changes, v: Vid, id: Id)
    requires SavedAs(rows, after, n, changes) && id !in changes
    ensures IsOpenRow(rows, v, id) <==> IsOpenRow(after, v, id)
    ensures IsOpenRow(rows, v, id) ==> after[v] == rows[v]
  {
    var vids :| Assigns(rows, changes, vids) && after == SaveRows(rows, n, changes, vids);
    if v in vids {
      assert Live(changes, vids[v]) && after[v].id != id;
    } else if v in rows {
      assert after[v] == CloseRows(rows, n, changes)[v];
    }
  }

  lemma SaveClosesDeleted(rows: Rows, after: Rows, n: nat, changes: Changes, v: Vid, id: Id)
    requires SavedAs(rows, after, n, changes) && id in changes && changes[id].None?
    ensures !IsOpenRow(after, v, id)
  {
    var vids :| Assigns(rows, changes, vids) && after == SaveRows(rows, n, changes, vids);
    if v in vids {
      assert Live(changes, vids[v]) && after[v].id != id;
    } else if v in rows {
      if rows[v].range.Open() {
        OpenIsLatest(rows, v);
      }
      assert after[v] == CloseRows(rows, n, changes)[v];
    }
  }

  /** A block without deletes keeps the cache coherent, and so does any block that
      leaves no deleted id cached as existing. */
  lemma BlockKeepsCoherentIff(s: State, t: State, n: nat, changes: BlockChanges, zeros: Zeros)
    requires Coherent(s, zeros) && BlockStep(s, t, n, changes, zeros)
    ensures Coherent(t, zeros) <==> forall k | k in t.cache :: Deletes(changes, k) ==> !t.cache[k].present
  {
    forall k | k in t.cache
      ensures CoherentAt(t, k, zeros) <==> (Deletes(changes, k) ==> !t.cache[k].present)
    {
      EntryStaysCoherentIff(s, t, n, changes, zeros, k);
    }
  }

  lemma EntryStaysCoherentIff(s: State, t: State, n: nat, changes: BlockChanges, zeros: Zeros, k: Key)
    requires Coherent(s, zeros) && BlockStep(s, t, n, changes, zeros) && k in t.cache
    ensures CoherentAt(t, k, zeros) <==> (Deletes(changes, k) ==> !t.cache[k].present)
  {
    assert EntryAfterBlock(s, t, changes, zeros, k);
    var rows, after, ch := s.tables[k.table], t.tables[k.table], ChangesOf(changes, k.table);
    assert SavedAs(rows, after, n, ch);
    if !Saves(changes, k) {
      assert k in s.cache ==> CoherentAt(s, k, zeros);
      UnsavedEntryIff(rows, after, n, ch, k, t.cache[k], zeros[k.table]);
    }
  }

  lemma UnsavedEntryIff(rows: Rows, after: Rows, n: nat, changes: Changes, k: Key, e: EntityVal, zero: Fields)
    requires SavedAs(rows, after, n, changes) && Agrees(rows, k, e, zero) && !Live(changes, k.id)
    ensures Agrees(after, k, e, zero) <==> (k.id in changes ==> !e.present)
  {
    hide SavedAs;
    if k.id in changes {
      forall v ensures !IsOpenRow(after, v, k.id) { SaveClosesDeleted(rows, after, n, changes, v, k.id); }
    } else {
      forall v
        ensures IsOpenRow(rows, v, k.id) <==> IsOpenRow(after, v, k.id)
        ensures IsOpenRow(rows, v, k.id) ==> after[v] == rows[v]
      {
        SaveKeepsOpenRow(rows, after, n, changes, v, k.id);
      }
    }
  }

  /** A batch save keeps a coherent cache coherent exactly when no id it deletes is
      cached as existing before it, final entities that it purges aside: the save
      does not invalidate an entity on delete. */
  lemma SaveKeepsCoherentIff(s: State, t: State, n: nat, changes: BlockChanges, zeros: Zeros, purged: set<Key>)
    requires Coherent(s, zeros) && SaveStep(s, t, n, changes, zeros, purged)
    ensures Coherent(t, zeros) <==>
            forall k | k in s.cache && k !in purged :: Deletes(changes, k) ==> !s.cache[k].present
  {
    BlockKeepsCoherentIff(s, t, n, changes, zeros);
    assert forall k | Deletes(changes, k) :: !Saves(changes, k);
    if Coherent(t, zeros) {
      forall k | k in s.cache && k !in purged && Deletes(changes, k)
        ensures !s.cache[k].present
      {
        assert k in t.cache && t.cache[k] == s.cache[k];
      }
    }
  }

  /** The failure: entity "a" is live and cached, block 5 deletes it, and whatever
      the save leaves behind still caches it as existing. */
  lemma DeleteLeavesStaleEntry(s: State, t: State, changes: BlockChanges, zeros: Zeros)
    requires zeros == map["pair" := map[]] && changes == map["pair" := map["a" := None]]
    requires var row := Row("a", Span(4, None), 4, map[]);
             && s == State(map["pair" := map[1 := row]], map[Key("pair", "a") := Loaded("pair", 1, row)])
             && t == State(map["pair" := map[1 := CloseRow(row, 5)]], s.cache)
    ensures Coherent(s, zeros) && SaveStep(s, t, 5, changes, zeros, {})
    ensures forall u | SaveStep(s, u, 5, changes, zeros, {}) :: !Coherent(u, zeros)
  {
    var k := Key("pair", "a");
    DeleteExample(s, t, changes, zeros);
    assert Deletes(changes, k) && k in s.cache && s.cache[k].present;
    forall u | SaveStep(s, u, 5, changes, zeros, {})
      ensures !Coherent(u, zeros)
    {
      SaveKeepsCoherentIff(s, u, 5, changes, zeros, {});
    }
  }

  /** The save of that example. */
  lemma DeleteExample(s: State, t: State, changes: BlockChanges, zeros: Zeros)
    requires zeros == map["pair" := map[]] && changes == map["pair" := map["a" := None]]
    requires var row := Row("a", Span(4, None), 4, map[]);
             && s == State(map["pair" := map[1 := row]], map[Key("pair", "a") := Loaded("pair", 1, row)])
             && t == State(map["pair" := map[1 := CloseRow(row, 5)]], s.cache)
    ensures Coherent(s, zeros) && SaveStep(s, t, 5, changes, zeros, {})
  {
    hide SavedAs;
    DeleteOneRow(Row("a", Span(4, None), 4, map[]));
  }

  lemma DeleteOneRow(row: Row)
    requires row == Row("a", Span(4, None), 4, map[])
    ensures SavedAs(map[1 := row], map[1 := CloseRow(row, 5)], 5, map["a" := None])
  {
    var rows: Rows, ch: Changes := map[1 := row], map["a" := None];
    assert IsLatest(rows, 1) && ClosedBySave(rows, ch, 1);
    assert Assigns(rows, ch, map[]);
    assert SaveRows(rows, 5, ch, map[]) == map[1 := CloseRow(row, 5)];
  }

  lemma ForkKeepsCoherent(s: State, t: State, b: nat, zeros: Zeros)
    requires Coherent(s, zeros) && ForkStep(s, t, b)
    ensures Coherent(t, zeros)
  {
    forall k | k in t.cache
      ensures CoherentAt(t, k, zeros)
    {
      assert CoherentAt(s, k, zeros) && !ReturnedKey(s, b, k);
      var rows := s.tables[k.table];
      forall v
        ensures IsOpenRow(rows, v, k.id) <==> IsOpenRow(ForkRows(rows, b), v, k.id)
        ensures IsOpenRow(rows, v, k.id) ==> ForkRows(rows, b)[v] == rows[v]
      {
        assert v in rows && rows[v].id == k.id ==> !DeletedByFork(rows[v], b) && !ReopenedByFork(rows[v], b);
      }
    }
  }
}
