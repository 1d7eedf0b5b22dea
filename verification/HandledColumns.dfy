/**
 What saved blocks put into the columns of a row. The statements speak of open rows, raw
 changes, field texts and column readings, not of the functions that the handler computes with.
 */
module HandledColumns {
  import opened Prelude
  import opened VersionedRows
  import opened History
  import opened EntityCaches
  import opened StoreSpec
  import opened BlockEffects
  import opened Columns
  import opened Loaders
  import opened Runs
  import opened HandledRuns
  import Sq = Squash

  // ---------------------------------------------------------------------
  // The verdict on a block
  // ---------------------------------------------------------------------

  /** The texts of a row's squashed change are those its raw changes leave. */
  lemma StandInTexts(g: seq<Sq.Change>, s: seq<Sq.Change>, r: Sq.Change)
    requires Sq.StandsFor(g, r) && Sq.SortOf(g, s) && CreatesAndUpdates(s) && |s| == |g|
    ensures Texts(r.fields) == AllTexts(s)
  {
    hide Sq.AsMap, Sq.NewValues;
    Sq.AnySortGivesNet(g, s);
    if |g| == 1 {
      assert s[0] in multiset(g);
      assert s == [r] && s[..0] == [] && map[] + Texts(r.fields) == Texts(r.fields);
    } else {
      hide AllTexts;
      FoldTexts(s);
    }
  }

  lemma {:induction false} FoldTexts(s: seq<Sq.Change>)
    requires s != [] && CreatesAndUpdates(s) && Sq.Fold(s).Some?
    ensures Sq.NewValues(Sq.Fold(s).value.fields) == AllTexts(s) && Sq.Fold(s).value.op != Sq.Delete
  {
    hide Sq.AsMap, Sq.NewValues;
    var m := |s| - 1;
    assert s[m] in s;
    if m == 0 {
      assert s[..0] == [] && map[] + Texts(s[0].fields) == Texts(s[0].fields);
    } else {
      assert CreatesAndUpdates(s[..m]) by { assert forall c | c in s[..m] :: c in s; }
      FoldTexts(s[..m]);
      Sq.MergedNewValues(Sq.Fold(s[..m]).value.fields, s[m].fields);
    }
  }

  /** A change can be applied exactly when its table is known, its id is not empty, and no
      column that it gives a text refuses it or finds it invalid. */
  lemma CanApplyIff(c: Sq.Change, registry: Registry)
    ensures CanApply(c, registry) <==>
            c.table in registry && c.pk != "" && Agreeable(registry[c.table].columns, c.fields)
  {
    if c.table in registry {
      AcceptableIff(registry[c.table].columns, c.fields);
    }
  }

  /** Field f of c is the one that decides its name for its row: no later field of c has the
      name, and no other change to the row that names it has as high an ordinal. */
  ghost predicate Decides(cs: seq<Sq.Change>, c: Sq.Change, f: int) {
    && c in cs && 0 <= f < |c.fields|
    && (forall g | f < g < |c.fields| :: c.fields[g].name != c.fields[f].name)
    && (forall d, g | d in cs && d.table == c.table && d.pk == c.pk && d != c && 0 <= g < |d.fields|
          && d.fields[g].name == c.fields[f].name :: d.ordinal < c.ordinal)
  }

  /** The raw changes of row k in ordinal order. */
  function RowRun(cs: seq<Sq.Change>, k: Key): seq<Sq.Change> {
    Raw(Sq.ByOrdinal(cs), k)
  }

  lemma RowRunHas(cs: seq<Sq.Change>, k: Key)
    requires CreatesAndUpdates(cs)
    ensures Sq.SortOf(Sq.Group(cs, (k.table, k.id)), RowRun(cs, k)) && CreatesAndUpdates(RowRun(cs, k))
    ensures |RowRun(cs, k)| == |Sq.Group(cs, (k.table, k.id))|
    ensures forall c :: c in RowRun(cs, k) <==> c in cs && c.table == k.table && c.pk == k.id
  {
    var run := Sq.ByOrdinal(cs);
    Sq.ByOrdinalSorts(cs);
    SortedGroup(cs, run, (k.table, k.id));
    Sq.GroupOrder(run, (k.table, k.id));
    forall c ensures c in run <==> c in cs { assert c in multiset(run) <==> c in multiset(cs); }
  }

  lemma DecidesText(cs: seq<Sq.Change>, c: Sq.Change, f: nat)
    requires CreatesAndUpdates(cs) && Decides(cs, c, f)
    ensures var texts := AllTexts(RowRun(cs, KeyOf(c)));
            c.fields[f].name in texts && texts[c.fields[f].name] == c.fields[f].newValue
  {
    hide AllTexts, RowRun;
    RowRunHas(cs, KeyOf(c));
    HighestGivesText(RowRun(cs, KeyOf(c)), c, f);
  }

  lemma TextIsDecided(cs: seq<Sq.Change>, k: Key, n: string) returns (c: Sq.Change, f: nat)
    requires CreatesAndUpdates(cs) && n in AllTexts(RowRun(cs, k)) && Sq.StrictlySorted(RowRun(cs, k))
    ensures Decides(cs, c, f) && KeyOf(c) == k && c.fields[f].name == n
    ensures AllTexts(RowRun(cs, k))[n] == c.fields[f].newValue
  {
    hide AllTexts, RowRun;
    RowRunHas(cs, k);
    var s := RowRun(cs, k);
    var p;
    p, f := AllTextsFrom(s, n);
    c := s[p];
    assert c in s;
    forall d, g | d in cs && d.table == c.table && d.pk == c.pk && d != c && 0 <= g < |d.fields|
                  && d.fields[g].name == n
      ensures d.ordinal < c.ordinal
    {
      assert d in s;
      var q :| 0 <= q < |s| && s[q] == d;
      assert q < p;
    }
  }

  /** The squashed change of a changed row, and its texts. */
  lemma RowStandIn(cs: seq<Sq.Change>, rs: seq<Sq.Change>, k: Key) returns (r: Sq.Change)
    requires Sq.Squashed(cs, rs) && CreatesAndUpdates(cs) && RowRun(cs, k) != []
    ensures r in rs && KeyOf(r) == k && Texts(r.fields) == AllTexts(RowRun(cs, k))
    ensures Sq.StrictlySorted(RowRun(cs, k))
  {
    hide AllTexts, RowRun, Texts;
    RowRunHas(cs, k);
    var g := Sq.Group(cs, (k.table, k.id));
    r := StandIn(cs, rs, (k.table, k.id));
    StandInTexts(g, RowRun(cs, k), r);
    StandsForStrict(g, RowRun(cs, k), r);
  }

  lemma StandsForStrict(g: seq<Sq.Change>, s: seq<Sq.Change>, r: Sq.Change)
    requires Sq.StandsFor(g, r) && Sq.SortOf(g, s) && |s| == |g|
    ensures Sq.StrictlySorted(s)
  {
    Sq.AnySortGivesNet(g, s);
    if |g| > 1 {
      Sq.FoldNeedsStrictOrder(s);
    }
  }

  lemma SquashedHasRun(cs: seq<Sq.Change>, rs: seq<Sq.Change>, r: Sq.Change)
    requires Sq.Squashed(cs, rs) && CreatesAndUpdates(cs) && r in rs
    ensures RowRun(cs, KeyOf(r)) != []
  {
    RowRunHas(cs, KeyOf(r));
    assert Sq.StandsFor(Sq.Group(cs, r.RowKey()), r);
  }

  /** Each raw change names a known table and an id, and no column refuses the text that is
      decided for it or finds it invalid. */
  ghost predicate AllAgreeable(cs: seq<Sq.Change>, registry: Registry) {
    && (forall c | c in cs :: c.table in registry && c.pk != "")
    && (forall c, f, i | Decides(cs, c, f) && c.table in registry && 0 <= i < |registry[c.table].columns|
          && registry[c.table].columns[i].name == c.fields[f].name ::
          var kind := registry[c.table].columns[i].kind;
          !kind.Refuses? && (kind.Reads? ==> kind.valid(c.fields[f].newValue)))
  }

  lemma RunOfChange(cs: seq<Sq.Change>, c: Sq.Change)
    requires CreatesAndUpdates(cs) && c in cs
    ensures RowRun(cs, KeyOf(c)) != []
  {
    RowRunHas(cs, KeyOf(c));
  }

  lemma AppliedIsAgreeable(cs: seq<Sq.Change>, rs: seq<Sq.Change>, registry: Registry, c: Sq.Change, f: nat, i: nat)
    requires Sq.Squashed(cs, rs) && CreatesAndUpdates(cs) && forall r | r in rs :: CanApply(r, registry)
    requires Decides(cs, c, f) && c.table in registry && i < |registry[c.table].columns|
             && registry[c.table].columns[i].name == c.fields[f].name
    ensures var kind := registry[c.table].columns[i].kind;
            !kind.Refuses? && (kind.Reads? ==> kind.valid(c.fields[f].newValue))
  {
    hide Sq.Squashed, CreatesAndUpdates, Texts, AllTexts, RowRun;
    RunOfChange(cs, c);
    var r := RowStandIn(cs, rs, KeyOf(c));
    DecidesText(cs, c, f);
    assert !Rejects(registry[c.table].columns[i], Texts(r.fields));
  }

  lemma AgreeableIsApplied(cs: seq<Sq.Change>, rs: seq<Sq.Change>, registry: Registry, r: Sq.Change)
    requires Sq.Squashed(cs, rs) && CreatesAndUpdates(cs) && AllAgreeable(cs, registry) && r in rs
    ensures CanApply(r, registry)
  {
    hide Sq.Squashed, CreatesAndUpdates, Texts, AllTexts, RowRun;
    SquashedHasRun(cs, rs, r);
    var q := RowStandIn(cs, rs, KeyOf(r));
    SameStandIn(cs, rs, q, r);
    RowRunHas(cs, KeyOf(r));
    var c := RowRun(cs, KeyOf(r))[0];
    assert c in cs && c.table == r.table && c.pk == r.pk;
    var columns := registry[r.table].columns;
    forall i | 0 <= i < |columns|
      ensures !Rejects(columns[i], Texts(r.fields))
    {
      if columns[i].name in Texts(r.fields) {
        var d, f := TextIsDecided(cs, KeyOf(r), columns[i].name);
      }
    }
  }

  lemma SameStandIn(cs: seq<Sq.Change>, rs: seq<Sq.Change>, q: Sq.Change, r: Sq.Change)
    requires Sq.Squashed(cs, rs) && q in rs && r in rs && KeyOf(q) == KeyOf(r)
    ensures q == r
  {
    var i :| 0 <= i < |rs| && rs[i] == q;
    var j :| 0 <= j < |rs| && rs[j] == r;
    assert rs[i].RowKey() == rs[j].RowKey();
  }

  /** The handler applies every squashed change of a block exactly when the raw changes agree. */
  lemma BlockAppliesIff(cs: seq<Sq.Change>, rs: seq<Sq.Change>, registry: Registry)
    requires Sq.Squashed(cs, rs) && CreatesAndUpdates(cs)
    ensures (forall r | r in rs :: CanApply(r, registry)) <==> AllAgreeable(cs, registry)
  {
    hide Sq.Squashed, CreatesAndUpdates, CanApply;
    if AllAgreeable(cs, registry) {
      forall r | r in rs { AgreeableIsApplied(cs, rs, registry, r); }
    }
    if forall r | r in rs :: CanApply(r, registry) {
      forall c | c in cs
        ensures c.table in registry && c.pk != ""
      {
        RunOfChange(cs, c);
        var r := RowStandIn(cs, rs, KeyOf(c));
        CanApplyIff(r, registry);
      }
      forall c, f, i | Decides(cs, c, f) && c.table in registry && 0 <= i < |registry[c.table].columns|
                       && registry[c.table].columns[i].name == c.fields[f].name
        ensures var kind := registry[c.table].columns[i].kind;
                !kind.Refuses? && (kind.Reads? ==> kind.valid(c.fields[f].newValue))
      {
        AppliedIsAgreeable(cs, rs, registry, c, f, i);
      }
    }
  }

  // ---------------------------------------------------------------------
  // The columns of a saved row
  // ---------------------------------------------------------------------

  /** i is the last column of its name that reads. */
  ghost predicate IsReader(columns: seq<Column>, i: int) {
    && 0 <= i < |columns| && columns[i].kind.Reads?
    && forall j | i < j < |columns| && columns[j].kind.Reads? :: columns[j].name != columns[i].name
  }

  lemma HandledRows(s: State, t: State, n: nat, cs: seq<Sq.Change>, rs: seq<Sq.Change>, saved: BlockChanges,
                    registry: Registry, zeros: Zeros, x: TableName)
    requires HandledBlock(s, t, n, cs, rs, saved, registry, zeros) && 0 < n && x in s.tables
    ensures x in t.tables && WellFormed(s.tables[x]) && WellFormed(t.tables[x])
  {
    hide SavedAs, WellFormed;
    SavedWasWellFormed(s.tables[x], t.tables[x], n, ChangesOf(saved, x));
    SavedIsWellFormed(s.tables[x], t.tables[x], n, ChangesOf(saved, x));
  }

  lemma SavedWasWellFormed(rows: Rows, after: Rows, n: nat, changes: Changes)
    requires SavedAs(rows, after, n, changes)
    ensures WellFormed(rows)
  {
  }

  /** The live row of k after a handled block, by its texts. */
  lemma HandledRow(s: State, t: State, n: nat, cs: seq<Sq.Change>, rs: seq<Sq.Change>, saved: BlockChanges,
                   registry: Registry, zeros: Zeros, k: Key)
    requires HandledBlock(s, t, n, cs, rs, saved, registry, zeros) && CreatesAndUpdates(cs)
    requires k.table in s.tables && k.table in registry
    ensures k.table in t.tables
    ensures LiveFields(t.tables[k.table], k.id) ==
            if RowRun(cs, k) == [] then LiveFields(s.tables[k.table], k.id)
            else Some(BaseFields(s.tables[k.table], k.id, registry[k.table])
                      + Readings(registry[k.table].columns, AllTexts(RowRun(cs, k))))
  {
    hide Carries, BlockStep, Known, Sq.Squashed, LiveFields, BaseFields, AllTexts, Sq.SortOf, CreatesAndUpdates;
    Sq.ByOrdinalSorts(cs);
    assert Sequential(s.tables, t.tables, cs, registry);
    OverwriteAllReads(registry[k.table].columns, BaseFields(s.tables[k.table], k.id, registry[k.table]), RowRun(cs, k));
  }

  /** After a saved block, a column that a raw change decides holds its reading of the new value. */
  lemma ColumnIsSaved(s: State, t: State, n: nat, cs: seq<Sq.Change>, rs: seq<Sq.Change>, saved: BlockChanges,
                      registry: Registry, zeros: Zeros, c: Sq.Change, f: int, i: int)
    requires HandledBlock(s, t, n, cs, rs, saved, registry, zeros) && CreatesAndUpdates(cs) && 0 < n
    requires c.table in s.tables && c.table in registry && Decides(cs, c, f)
    requires IsReader(registry[c.table].columns, i) && registry[c.table].columns[i].name == c.fields[f].name
    ensures c.table in t.tables
    ensures exists v :: v in t.tables[c.table] && t.tables[c.table][v].id == c.pk
                        && t.tables[c.table][v].range.Open()
    ensures forall v | v in t.tables[c.table] && t.tables[c.table][v].id == c.pk && t.tables[c.table][v].range.Open() ::
              var fields := t.tables[c.table][v].fields;
              && c.fields[f].name in fields
              && fields[c.fields[f].name] == registry[c.table].columns[i].kind.read(c.fields[f].newValue)
  {
    hide HandledBlock, LiveFields, BaseFields, AllTexts, RowRun, WellFormed, CreatesAndUpdates, Readings;
    var k := KeyOf(c);
    HandledRows(s, t, n, cs, rs, saved, registry, zeros, c.table);
    HandledRow(s, t, n, cs, rs, saved, registry, zeros, k);
    RunOfChange(cs, c);
    DecidesText(cs, c, f);
    ReadingOf(registry[c.table].columns, AllTexts(RowRun(cs, k)), i);
    var v := LiveRowOf(t.tables[c.table], c.pk);
    forall v | v in t.tables[c.table] && t.tables[c.table][v].id == c.pk && t.tables[c.table][v].range.Open() {
      LiveFieldsAre(t.tables[c.table], v, c.pk);
    }
  }

  lemma LiveRowOf(rows: Rows, id: Id) returns (v: Vid)
    requires LiveFields(rows, id).Some?
    ensures v in rows && rows[v].id == id && rows[v].range.Open()
  {
    v :| IsOpenRow(rows, v, id);
  }

  /** A name that no column reads, or that no raw change to the row mentions, keeps its old value,
      or the default of a row that was not there. */
  lemma ColumnIsKept(s: State, t: State, n: nat, cs: seq<Sq.Change>, rs: seq<Sq.Change>, saved: BlockChanges,
                     registry: Registry, zeros: Zeros, x: TableName, v: Vid, name: string)
    requires HandledBlock(s, t, n, cs, rs, saved, registry, zeros) && CreatesAndUpdates(cs) && 0 < n
    requires x in s.tables && x in registry && x in t.tables
    requires v in t.tables[x] && t.tables[x][v].range.Open()
    requires forall d, g, i | d in cs && d.table == x && d.pk == t.tables[x][v].id && 0 <= g < |d.fields|
               && 0 <= i < |registry[x].columns| && registry[x].columns[i].kind.Reads? ::
               d.fields[g].name != name || registry[x].columns[i].name != name
    ensures forall w | w in s.tables[x] && s.tables[x][w].id == t.tables[x][v].id && s.tables[x][w].range.Open() ::
              SameAt(s.tables[x][w].fields, t.tables[x][v].fields, name)
    ensures (forall w | w in s.tables[x] && s.tables[x][w].id == t.tables[x][v].id :: !s.tables[x][w].range.Open()) ==>
              && SameAt(registry[x].zero + registry[x].defaults, t.tables[x][v].fields, name)
              && exists d :: d in cs && d.table == x && d.pk == t.tables[x][v].id
  {
    hide HandledBlock, AllTexts, RowRun, WellFormed, CreatesAndUpdates, Readings;
    var id := t.tables[x][v].id;
    var k, columns := Key(x, id), registry[x].columns;
    HandledRows(s, t, n, cs, rs, saved, registry, zeros, x);
    HandledRow(s, t, n, cs, rs, saved, registry, zeros, k);
    LiveFieldsAre(t.tables[x], v, id);
    NotRead(columns, cs, k, name);
    RowRunHas(cs, k);
    forall w | w in s.tables[x] && s.tables[x][w].id == id && s.tables[x][w].range.Open() {
      LiveFieldsAre(s.tables[x], w, id);
    }
    assert RowRun(cs, k) != [] ==> RowRun(cs, k)[0] in cs;
  }

  ghost predicate SameAt(a: Fields, b: Fields, name: string) {
    (name in a <==> name in b) && (name in a ==> a[name] == b[name])
  }

  lemma NotRead(columns: seq<Column>, cs: seq<Sq.Change>, k: Key, name: string)
    requires CreatesAndUpdates(cs)
    requires forall d, g, i | d in cs && d.table == k.table && d.pk == k.id && 0 <= g < |d.fields|
               && 0 <= i < |columns| && columns[i].kind.Reads? ::
               d.fields[g].name != name || columns[i].name != name
    ensures name !in Readings(columns, AllTexts(RowRun(cs, k)))
  {
    hide AllTexts, RowRun, Readings, CreatesAndUpdates;
    RowRunHas(cs, k);
    var s := RowRun(cs, k);
    assert forall p | 0 <= p < |s| :: s[p] in s;
    if name in Readings(columns, AllTexts(s)) {
      ReadingFrom(columns, AllTexts(s), name);
      var p, f := AllTextsFrom(s, name);
    }
  }

  // ---------------------------------------------------------------------
  // The columns of a row after a run
  // ---------------------------------------------------------------------

  ghost predicate AllCreatesAndUpdates(chain: seq<RawBlock>) {
    forall b | 0 <= b < |chain| :: CreatesAndUpdates(chain[b].changes)
  }

  lemma {:induction false} RawBeforePrefix(chain: seq<RawBlock>, b: nat)
    ensures RawBefore(chain, b) <= chain
  {
    if chain == [] || chain[|chain| - 1].block < b {
    } else {
      RawBeforePrefix(chain[..|chain| - 1], b);
    }
  }

  lemma {:induction false} SurvivingRaws(ops: seq<Op>, raws: seq<seq<Sq.Change>>)
    requires |raws| == |ops| && forall i | 0 <= i < |ops| && ops[i].Block? :: CreatesAndUpdates(raws[i])
    ensures AllCreatesAndUpdates(RawSurviving(ops, raws))
  {
    hide CreatesAndUpdates;
    if ops == [] {
    } else {
      var m := |ops| - 1;
      SurvivingRaws(ops[..m], raws[..m]);
      if ops[m].Fork? {
        RawBeforePrefix(RawSurviving(ops[..m], raws[..m]), ops[m].b);
      }
    }
  }

  /** Replaying one more block, by the texts that it leaves. */
  lemma ReplayedOneMore(chain: seq<RawBlock>, registry: Registry, k: Key)
    requires chain != [] && k.table in registry
    ensures var m := |chain| - 1;
            var before, run := Replayed(chain[..m], registry, k), RowRun(chain[m].changes, k);
            var schema := registry[k.table];
            Replayed(chain, registry, k) ==
            if run == [] then before
            else Some((if before.Some? then before.value else schema.zero + schema.defaults)
                      + Readings(schema.columns, AllTexts(run)))
  {
    hide AllTexts, OverwriteAll, Readings;
    var m := |chain| - 1;
    var before, schema := Replayed(chain[..m], registry, k), registry[k.table];
    var base := if before.Some? then before.value else schema.zero + schema.defaults;
    OverwriteAllReads(schema.columns, base, RowRun(chain[m].changes, k));
  }

  lemma {:induction false} ReplayedColumn(chain: seq<RawBlock>, registry: Registry, b: int, c: Sq.Change, f: int,
                                          i: int)
    requires AllCreatesAndUpdates(chain) && c.table in registry
    requires 0 <= b < |chain| && Decides(chain[b].changes, c, f)
    requires forall e, d, g | b < e < |chain| && d in chain[e].changes && d.table == c.table && d.pk == c.pk
               && 0 <= g < |d.fields| :: d.fields[g].name != c.fields[f].name
    requires IsReader(registry[c.table].columns, i) && registry[c.table].columns[i].name == c.fields[f].name
    ensures Replayed(chain, registry, KeyOf(c)).Some?
    ensures var fields := Replayed(chain, registry, KeyOf(c)).value;
            && c.fields[f].name in fields
            && fields[c.fields[f].name] == registry[c.table].columns[i].kind.read(c.fields[f].newValue)
  {
    hide Replayed, AllTexts, RowRun, Readings, CreatesAndUpdates, IsReader;
    var m, k, columns := |chain| - 1, KeyOf(c), registry[c.table].columns;
    ReplayedOneMore(chain, registry, k);
    assert CreatesAndUpdates(chain[m].changes);
    if b == m {
      RunOfChange(chain[m].changes, c);
      DecidesText(chain[m].changes, c, f);
      ReaderReads(columns, AllTexts(RowRun(chain[m].changes, k)), i);
    } else {
      ReplayedColumn(chain[..m], registry, b, c, f, i);
      NotRead(columns, chain[m].changes, k, c.fields[f].name);
    }
  }

  lemma ReaderReads(columns: seq<Column>, texts: Fields, i: int)
    requires IsReader(columns, i) && columns[i].name in texts
    ensures columns[i].name in Readings(columns, texts)
    ensures Readings(columns, texts)[columns[i].name] == columns[i].kind.read(texts[columns[i].name])
  {
    ReadingOf(columns, texts, i);
  }

  lemma {:induction false} ReplayedKept(chain: seq<RawBlock>, registry: Registry, k: Key, name: string)
    requires AllCreatesAndUpdates(chain) && k.table in registry
    requires forall e, d, g, i | 0 <= e < |chain| && d in chain[e].changes && d.table == k.table && d.pk == k.id
               && 0 <= g < |d.fields| && 0 <= i < |registry[k.table].columns|
               && registry[k.table].columns[i].kind.Reads? ::
               d.fields[g].name != name || registry[k.table].columns[i].name != name
    ensures var r := Replayed(chain, registry, k);
            r.Some? ==> SameAt(registry[k.table].zero + registry[k.table].defaults, r.value, name)
  {
    hide AllTexts, RowRun, Readings, CreatesAndUpdates;
    if chain == [] {
    } else {
      hide Replayed;
      var m := |chain| - 1;
      ReplayedKept(chain[..m], registry, k, name);
      ReplayedOneMore(chain, registry, k);
      assert CreatesAndUpdates(chain[m].changes);
      NotRead(registry[k.table].columns, chain[m].changes, k, name);
    }
  }

  ghost predicate ChangedBy(cs: seq<Sq.Change>, k: Key) {
    exists d :: d in cs && d.table == k.table && d.pk == k.id
  }

  /** Some block changes row k. */
  ghost predicate Changed(chain: seq<RawBlock>, k: Key) {
    exists b :: 0 <= b < |chain| && ChangedBy(chain[b].changes, k)
  }

  lemma ChangedByIff(cs: seq<Sq.Change>, k: Key)
    requires CreatesAndUpdates(cs)
    ensures ChangedBy(cs, k) <==> RowRun(cs, k) != []
  {
    hide RowRun, CreatesAndUpdates;
    RowRunHas(cs, k);
    var run := RowRun(cs, k);
    if run != [] {
      assert run[0] in run;
    }
    if ChangedBy(cs, k) {
      var d :| d in cs && d.table == k.table && d.pk == k.id;
      assert d in run;
    }
  }

  lemma ChangedOneMore(chain: seq<RawBlock>, k: Key)
    requires chain != []
    ensures Changed(chain, k) <==> Changed(chain[..|chain| - 1], k) || ChangedBy(chain[|chain| - 1].changes, k)
  {
    hide ChangedBy;
    var m := |chain| - 1;
    assert forall b | 0 <= b < m :: chain[..m][b] == chain[b];
  }

  lemma {:induction false} ReplayedIff(chain: seq<RawBlock>, registry: Registry, k: Key)
    requires AllCreatesAndUpdates(chain) && k.table in registry
    ensures Replayed(chain, registry, k).Some? <==> Changed(chain, k)
  {
    hide AllTexts, RowRun, Readings, CreatesAndUpdates;
    if chain == [] {
    } else {
      hide Replayed, Changed, ChangedBy;
      var m := |chain| - 1;
      ReplayedIff(chain[..m], registry, k);
      ReplayedOneMore(chain, registry, k);
      assert CreatesAndUpdates(chain[m].changes);
      ChangedOneMore(chain, k);
      ChangedByIff(chain[m].changes, k);
    }
  }

  /** The blocks whose raw changes count at block m: those that survive and are not later. */
  function CountingAt(ops: seq<Op>, raws: seq<seq<Sq.Change>>, m: nat): seq<RawBlock>
    requires |raws| == |ops|
  {
    RawBefore(RawSurviving(ops, raws), m + 1)
  }

  lemma RunShape(states: seq<State>, ops: seq<Op>, raws: seq<seq<Sq.Change>>, registry: Registry, zeros: Zeros)
    requires IsHandledRun(states, ops, raws, registry, zeros)
    ensures |raws| == |ops| && |states| == |ops| + 1
    ensures forall i | 0 <= i < |ops| && ops[i].Block? :: CreatesAndUpdates(raws[i])
  {
    hide HandledBlock, InOrder, CleanCrashes, Step, CreatesAndUpdates;
    forall i | 0 <= i < |ops| && ops[i].Block?
      ensures CreatesAndUpdates(raws[i])
    {
      assert HandledStep(states[i], ops[i], states[i + 1], raws[i], registry, zeros);
    }
  }

  lemma CountingRaws(states: seq<State>, ops: seq<Op>, raws: seq<seq<Sq.Change>>, registry: Registry, zeros: Zeros,
                     m: nat)
    requires IsHandledRun(states, ops, raws, registry, zeros)
    ensures AllCreatesAndUpdates(CountingAt(ops, raws, m))
  {
    hide IsHandledRun, CreatesAndUpdates;
    RunShape(states, ops, raws, registry, zeros);
    SurvivingRaws(ops, raws);
    RawBeforePrefix(RawSurviving(ops, raws), m + 1);
  }

  /** After any run of handled blocks, fork cleanups and settled crashes, an id has a row at block m
      exactly when a counting block changes it. */
  lemma RowAtIff(states: seq<State>, ops: seq<Op>, raws: seq<seq<Sq.Change>>, registry: Registry, zeros: Zeros,
                 x: TableName, m: nat, id: Id)
    requires IsHandledRun(states, ops, raws, registry, zeros) && x in states[0].tables && x in registry
    ensures x in states[|ops|].tables
    ensures (exists v :: v in states[|ops|].tables[x] && states[|ops|].tables[x][v].id == id
                         && states[|ops|].tables[x][v].range.Contains(m)) <==>
            Changed(CountingAt(ops, raws, m), Key(x, id))
  {
    hide IsHandledRun, Replayed, CountingAt;
    RunShape(states, ops, raws, registry, zeros);
    CountingRaws(states, ops, raws, registry, zeros, m);
    ReplayedIff(CountingAt(ops, raws, m), registry, Key(x, id));
    RowAt(states, ops, raws, registry, zeros, x, m, id);
  }

  lemma RowAt(states: seq<State>, ops: seq<Op>, raws: seq<seq<Sq.Change>>, registry: Registry, zeros: Zeros,
              x: TableName, m: nat, id: Id)
    requires IsHandledRun(states, ops, raws, registry, zeros) && x in states[0].tables && x in registry
    ensures x in states[|ops|].tables
    ensures forall v | v in states[|ops|].tables[x] && states[|ops|].tables[x][v].id == id
              && states[|ops|].tables[x][v].range.Contains(m) ::
              Replayed(CountingAt(ops, raws, m), registry, Key(x, id)) == Some(states[|ops|].tables[x][v].fields)
    ensures Replayed(CountingAt(ops, raws, m), registry, Key(x, id)).Some? ==>
              exists v :: v in states[|ops|].tables[x] && states[|ops|].tables[x][v].id == id
                          && states[|ops|].tables[x][v].range.Contains(m)
  {
    hide IsHandledRun, Replayed, RawBefore, RawSurviving;
    RunShape(states, ops, raws, registry, zeros);
    var r := Replayed(CountingAt(ops, raws, m), registry, Key(x, id));
    forall f: Fields
      ensures x in states[|ops|].tables
      ensures AsOf(states[|ops|].tables[x], m, id, f) <==> r == Some(f)
    {
      HandledTimeTravel(states, ops, raws, registry, zeros, x, m, id, f);
    }
    HandledTimeTravel(states, ops, raws, registry, zeros, x, m, id, map[]);
    forall v | v in states[|ops|].tables[x] && states[|ops|].tables[x][v].id == id
               && states[|ops|].tables[x][v].range.Contains(m)
      ensures r == Some(states[|ops|].tables[x][v].fields)
    {
      assert AsOf(states[|ops|].tables[x], m, id, states[|ops|].tables[x][v].fields);
    }
    if r.Some? {
      assert AsOf(states[|ops|].tables[x], m, id, r.value);
    }
  }

  /** ... a column that the row's raw changes up to m decide, in the last counting block that names
      it, holds its reading of the new value ... */
  lemma ColumnAt(states: seq<State>, ops: seq<Op>, raws: seq<seq<Sq.Change>>, registry: Registry, zeros: Zeros,
                 m: nat, v: Vid, b: int, c: Sq.Change, f: int, i: int)
    requires IsHandledRun(states, ops, raws, registry, zeros)
    requires c.table in states[0].tables && c.table in states[|ops|].tables && c.table in registry
    requires var rows := states[|ops|].tables[c.table];
             v in rows && rows[v].id == c.pk && rows[v].range.Contains(m)
    requires 0 <= b < |CountingAt(ops, raws, m)| && Decides(CountingAt(ops, raws, m)[b].changes, c, f)
    requires forall e, d, g | b < e < |CountingAt(ops, raws, m)| && d in CountingAt(ops, raws, m)[e].changes
               && d.table == c.table && d.pk == c.pk && 0 <= g < |d.fields| :: d.fields[g].name != c.fields[f].name
    requires IsReader(registry[c.table].columns, i) && registry[c.table].columns[i].name == c.fields[f].name
    ensures var fields := states[|ops|].tables[c.table][v].fields;
            && c.fields[f].name in fields
            && fields[c.fields[f].name] == registry[c.table].columns[i].kind.read(c.fields[f].newValue)
  {
    hide IsHandledRun, Replayed, CountingAt;
    RunShape(states, ops, raws, registry, zeros);
    CountingRaws(states, ops, raws, registry, zeros, m);
    ReplayedColumn(CountingAt(ops, raws, m), registry, b, c, f, i);
    RowAt(states, ops, raws, registry, zeros, c.table, m, c.pk);
  }

  /** ... and a name that no column reads, or no counting block gives the row, has the default. */
  lemma DefaultAt(states: seq<State>, ops: seq<Op>, raws: seq<seq<Sq.Change>>, registry: Registry, zeros: Zeros,
                  x: TableName, m: nat, v: Vid, name: string)
    requires IsHandledRun(states, ops, raws, registry, zeros)
    requires x in states[0].tables && x in states[|ops|].tables && x in registry
    requires v in states[|ops|].tables[x] && states[|ops|].tables[x][v].range.Contains(m)
    requires forall e, d, g, i | 0 <= e < |CountingAt(ops, raws, m)| && d in CountingAt(ops, raws, m)[e].changes
               && d.table == x && d.pk == states[|ops|].tables[x][v].id && 0 <= g < |d.fields|
               && 0 <= i < |registry[x].columns| && registry[x].columns[i].kind.Reads? ::
               d.fields[g].name != name || registry[x].columns[i].name != name
    ensures SameAt(registry[x].zero + registry[x].defaults, states[|ops|].tables[x][v].fields, name)
  {
    hide IsHandledRun, Replayed, CountingAt;
    RunShape(states, ops, raws, registry, zeros);
    var id := states[|ops|].tables[x][v].id;
    CountingRaws(states, ops, raws, registry, zeros, m);
    ReplayedKept(CountingAt(ops, raws, m), registry, Key(x, id), name);
    RowAt(states, ops, raws, registry, zeros, x, m, id);
  }
}
