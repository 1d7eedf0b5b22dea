/** What a block of table changes does to the live rows, and what it should do. */
module BlockEffects {
  import opened Prelude
  import opened VersionedRows
  import opened History
  import opened EntityCaches
  import opened StoreSpec
  import Sq = Squash

  /** What a column makes of a text: it reads it, and may still reject it, leaves it aside, as an
      array does, or has no reading for it at all, as the embedded base. */
  datatype Kind = Reads(read: string -> string, valid: string -> bool) | Ignores | Refuses

  datatype Column = Column(name: string, kind: Kind) {

    predicate Accepts(text: string) {
      match kind
      case Reads(_, valid) => valid(text)
      case Ignores => true
      case Refuses => false
    }
  }

  /** One entity type: its columns in order, their zero value, and what its defaults set. */
  datatype Schema = Schema(columns: seq<Column>, zero: Fields, defaults: Fields)

  type Registry = map<TableName, Schema>

  /** What the columns read of the given texts. */
  function Readings(columns: seq<Column>, texts: Fields): Fields {
    if columns == [] then map[] else
    var before := Readings(columns[..|columns| - 1], texts);
    var c := columns[|columns| - 1];
    if c.kind.Reads? && c.name in texts then before[c.name := c.kind.read(texts[c.name])] else before
  }

  /** The columns a change names take what they read of its new values; other names are ignored. */
  function Overwrite(columns: seq<Column>, fields: Fields, m: Sq.FieldMap): Fields {
    fields + Readings(columns, Sq.NewValues(m))
  }

  /** The new value of each name, the last one of a name that comes twice. */
  function Texts(fields: seq<Sq.Field>): Fields {
    Sq.NewValues(Sq.AsMap(fields))
  }

  predicate Rejects(c: Column, texts: Fields) {
    c.name in texts && !c.Accepts(texts[c.name])
  }

  predicate Acceptable(columns: seq<Column>, texts: Fields) {
    forall i | 0 <= i < |columns| :: !Rejects(columns[i], texts)
  }

  /** How many columns are visited: all, or those up to the first that rejects its text. */
  function Visited(columns: seq<Column>, texts: Fields): (m: nat)
    ensures m <= |columns|
  {
    if columns == [] then 0
    else if Rejects(columns[0], texts) then 1
    else 1 + Visited(columns[1..], texts)
  }

  /** Overwriting that stops at a column which rejects its text, having set what that column read. */
  function PartlyOverwrite(columns: seq<Column>, fields: Fields, m: Sq.FieldMap): Fields {
    Overwrite(columns[..Visited(columns, Sq.NewValues(m))], fields, m)
  }

  function KeyOf(c: Sq.Change): Key {
    Key(c.table, c.pk)
  }

  // ---------------------------------------------------------------------
  // The live state
  // ---------------------------------------------------------------------

  ghost function LiveFields(rows: Rows, id: Id): Option<Fields> {
    if v :| IsOpenRow(rows, v, id) then Some(rows[v].fields) else None
  }

  lemma LiveFieldsAre(rows: Rows, v: Vid, id: Id)
    requires WellFormed(rows) && IsOpenRow(rows, v, id)
    ensures LiveFields(rows, id) == Some(rows[v].fields)
  {
    forall w | IsOpenRow(rows, w, id) { OneOpenRow(rows, v, w); }
  }

  /** The fields a change starts from: the live row, or the defaults of the type. */
  ghost function BaseFields(rows: Rows, id: Id, schema: Schema): Fields {
    var live := LiveFields(rows, id);
    if live.Some? then live.value else schema.zero + schema.defaults
  }

  /** One field map for each changed row: its base overwritten by the net change. */
  ghost function Effects(tables: map<TableName, Rows>, rs: seq<Sq.Change>, registry: Registry): map<Key, Fields>
    requires forall r | r in rs :: r.table in tables && r.table in registry
  {
    if rs == [] then map[] else
    var r := rs[|rs| - 1];
    Effects(tables, rs[..|rs| - 1], registry)[KeyOf(r) :=
      Overwrite(registry[r.table].columns, BaseFields(tables[r.table], r.pk, registry[r.table]), Sq.AsMap(r.fields))]
  }

  /** changes saves exactly these rows and deletes none. */
  ghost predicate Carries(changes: BlockChanges, effects: map<Key, Fields>) {
    && (forall k :: Saves(changes, k) <==> k in effects)
    && (forall k | k in effects :: changes[k.table][k.id] == Some(effects[k]))
    && (forall k :: !Deletes(changes, k))
  }

  /** The live row of an id after a block is what the block made of it, or the old one. */
  lemma LiveAfterSave(rows: Rows, after: Rows, n: nat, changes: Changes, id: Id)
    requires SavedAs(rows, after, n, changes) && 0 < n
    ensures LiveFields(after, id) == if id in changes then changes[id] else LiveFields(rows, id)
  {
    if Live(changes, id) {
      LiveAfterUpdate(rows, after, n, changes, id);
    } else if id in changes {
      forall v ensures !IsOpenRow(after, v, id) { SaveClosesDeleted(rows, after, n, changes, v, id); }
    } else {
      LiveUntouched(rows, after, n, changes, id);
    }
  }

  lemma LiveAfterUpdate(rows: Rows, after: Rows, n: nat, changes: Changes, id: Id)
    requires SavedAs(rows, after, n, changes) && 0 < n && Live(changes, id)
    ensures LiveFields(after, id) == changes[id]
  {
    var vids :| Assigns(rows, changes, vids) && after == SaveRows(rows, n, changes, vids);
    SaveWellFormed(rows, n, changes, vids);
    var v :| v in vids && vids[v] == id;
    assert after[v] == NewRow(n, changes, id);
    LiveFieldsAre(after, v, id);
  }

  lemma LiveUntouched(rows: Rows, after: Rows, n: nat, changes: Changes, id: Id)
    requires SavedAs(rows, after, n, changes) && 0 < n && id !in changes
    ensures LiveFields(after, id) == LiveFields(rows, id)
  {
    if v :| IsOpenRow(rows, v, id) {
      SaveKeepsOpenRow(rows, after, n, changes, v, id);
      SavedIsWellFormed(rows, after, n, changes);
      LiveFieldsAre(rows, v, id);
      LiveFieldsAre(after, v, id);
    } else {
      forall v ensures !IsOpenRow(after, v, id) { SaveKeepsOpenRow(rows, after, n, changes, v, id); }
    }
  }

  // ---------------------------------------------------------------------
  // Sequential application
  // ---------------------------------------------------------------------

  /** Every raw change in turn overwrites the row. */
  function OverwriteAll(columns: seq<Column>, fields: Fields, s: seq<Sq.Change>): Fields {
    if s == [] then fields
    else Overwrite(columns, OverwriteAll(columns, fields, s[..|s| - 1]), Sq.AsMap(s[|s| - 1].fields))
  }

  predicate CreatesAndUpdates(cs: seq<Sq.Change>) {
    forall c | c in cs :: c.op == Sq.Create || c.op == Sq.Update
  }

  /** Later texts win, column by column. */
  lemma {:induction false} ReadingsOfSum(columns: seq<Column>, a: Fields, b: Fields)
    ensures Readings(columns, a + b) == Readings(columns, a) + Readings(columns, b)
    ensures Readings(columns, b).Keys <= b.Keys
  {
    if columns == [] {
    } else {
      var init, c := columns[..|columns| - 1], columns[|columns| - 1];
      ReadingsOfSum(init, a, b);
      if c.kind.Reads? {
        SetInSum(Readings(init, a), Readings(init, b), a, b, c.name, c.kind.read);
      }
    }
  }

  lemma SetInSum(x: Fields, y: Fields, a: Fields, b: Fields, n: string, read: string -> string)
    requires y.Keys <= b.Keys
    ensures n in b ==> (x + y)[n := read(b[n])] == x + y[n := read(b[n])]
    ensures n in a && n in b ==> (x + y)[n := read(b[n])] == x[n := read(a[n])] + y[n := read(b[n])]
    ensures n in a && n !in b ==> (x + y)[n := read(a[n])] == x[n := read(a[n])] + y
  {
  }

  lemma OverwriteMerged(columns: seq<Column>, fields: Fields, m: Sq.FieldMap, fs: seq<Sq.Field>)
    requires Sq.MergeFields(m, fs).Some?
    ensures Overwrite(columns, fields, Sq.MergeFields(m, fs).value)
            == Overwrite(columns, Overwrite(columns, fields, m), Sq.AsMap(fs))
  {
    hide Readings, Sq.MergeFields, Sq.AsMap, Sq.NewValues;
    Sq.MergedNewValues(m, fs);
    ReadingsOfSum(columns, Sq.NewValues(m), Sq.NewValues(Sq.AsMap(fs)));
  }

  /** Overwriting with the net change is overwriting with each change in turn. */
  lemma {:induction false} FoldOverwrites(columns: seq<Column>, fields: Fields, s: seq<Sq.Change>)
    requires s != [] && CreatesAndUpdates(s) && Sq.Fold(s).Some?
    ensures Overwrite(columns, fields, Sq.Fold(s).value.fields) == OverwriteAll(columns, fields, s)
    ensures Sq.Fold(s).value.op != Sq.Delete
  {
    var m := |s| - 1;
    assert s[m] in s;
    if m == 0 {
      assert OverwriteAll(columns, fields, s[..m]) == fields;
    } else {
      assert CreatesAndUpdates(s[..m]) by { assert forall c | c in s[..m] :: c in s; }
      FoldOverwrites(columns, fields, s[..m]);
      OverwriteMerged(columns, fields, Sq.Fold(s[..m]).value.fields, s[m].fields);
    }
  }

  lemma {:induction false} EffectAt(tables: map<TableName, Rows>, rs: seq<Sq.Change>, registry: Registry, r: Sq.Change)
    requires forall r | r in rs :: r.table in tables && r.table in registry
    requires r in rs && forall i, j | 0 <= i < j < |rs| :: rs[i].RowKey() != rs[j].RowKey()
    ensures KeyOf(r) in Effects(tables, rs, registry)
    ensures Effects(tables, rs, registry)[KeyOf(r)]
            == Overwrite(registry[r.table].columns, BaseFields(tables[r.table], r.pk, registry[r.table]),
                         Sq.AsMap(r.fields))
  {
    var m := |rs| - 1;
    if rs[m] == r {
    } else {
      var i :| 0 <= i < |rs| && rs[i] == r;
      assert r in rs[..m] && rs[i].RowKey() != rs[m].RowKey();
      EffectAt(tables, rs[..m], registry, r);
    }
  }

  lemma {:induction false} EffectKeys(tables: map<TableName, Rows>, rs: seq<Sq.Change>, registry: Registry, k: Key)
    requires forall r | r in rs :: r.table in tables && r.table in registry
    ensures k in Effects(tables, rs, registry) <==> exists r :: r in rs && KeyOf(r) == k
  {
    if rs == [] {
    } else {
      var m := |rs| - 1;
      EffectKeys(tables, rs[..m], registry, k);
      assert rs == rs[..m] + [rs[m]];
    }
  }

  /** The net change of a row overwrites its base as its raw changes do, in ordinal order. */
  lemma StandInOverwrites(columns: seq<Column>, fields: Fields, g: seq<Sq.Change>, s: seq<Sq.Change>, r: Sq.Change)
    requires Sq.StandsFor(g, r) && Sq.SortOf(g, s) && CreatesAndUpdates(s) && |s| == |g|
    ensures Overwrite(columns, fields, Sq.AsMap(r.fields)) == OverwriteAll(columns, fields, s)
  {
    hide Overwrite, Sq.AsMap;
    Sq.AnySortGivesNet(g, s);
    if |g| == 1 {
      assert s[0] in multiset(g);
      assert s == [r] && s[..0] == [] && OverwriteAll(columns, fields, []) == fields;
    } else {
      hide OverwriteAll;
      FoldOverwrites(columns, fields, s);
    }
  }

  lemma NothingVanishes(g: seq<Sq.Change>)
    requires CreatesAndUpdates(g)
    ensures !Sq.Vanishes(g)
  {
    if |g| > 1 && Sq.NetOf(g).Some? {
      var s := Sq.ByOrdinal(g);
      Sq.ByOrdinalSorts(g);
      assert CreatesAndUpdates(s) by { assert forall c | c in s :: c in multiset(g); }
      FoldOverwrites([], map[], s);
    }
  }

  /** The raw changes to row k in ordinal order. */
  function Raw(run: seq<Sq.Change>, k: Key): seq<Sq.Change> {
    Sq.Group(run, (k.table, k.id))
  }

  /** Each effect is the base overwritten by every raw change of the row in turn. */
  lemma EffectsAreSequential(tables: map<TableName, Rows>, cs: seq<Sq.Change>, run: seq<Sq.Change>, rs: seq<Sq.Change>,
                             registry: Registry, k: Key)
    requires Sq.SortOf(cs, run) && Sq.Squashed(cs, rs) && CreatesAndUpdates(cs)
    requires forall r | r in rs :: r.table in tables && r.table in registry
    ensures k in Effects(tables, rs, registry) <==> Raw(run, k) != []
    ensures k in Effects(tables, rs, registry) ==>
              && k.table in tables && k.table in registry
              && Effects(tables, rs, registry)[k]
                 == OverwriteAll(registry[k.table].columns,
                                BaseFields(tables[k.table], k.id, registry[k.table]), Raw(run, k))
  {
    hide Effects;
    var p := (k.table, k.id);
    var g, s := Sq.Group(cs, p), Raw(run, k);
    Sq.SameGroups(cs, run, p);
    EffectKeys(tables, rs, registry, k);
    SortedGroup(cs, run, p);
    if g != [] {
      var r := StandIn(cs, rs, p);
      EffectAt(tables, rs, registry, r);
      StandInOverwrites(registry[k.table].columns, BaseFields(tables[k.table], k.id, registry[k.table]), g, s, r);
    } else {
      assert forall r | r in rs :: Sq.StandsFor(Sq.Group(cs, r.RowKey()), r);
    }
  }

  lemma SortedGroup(cs: seq<Sq.Change>, run: seq<Sq.Change>, p: (string, string))
    requires Sq.SortOf(cs, run) && CreatesAndUpdates(cs)
    ensures Sq.SortOf(Sq.Group(cs, p), Sq.Group(run, p)) && |Sq.Group(cs, p)| == |Sq.Group(run, p)|
    ensures CreatesAndUpdates(Sq.Group(run, p)) && CreatesAndUpdates(Sq.Group(cs, p))
  {
    Sq.SameGroups(cs, run, p);
    Sq.GroupOrder(cs, p);
    Sq.GroupOrder(run, p);
    assert forall c | c in Sq.Group(run, p) :: c in multiset(cs);
  }

  lemma StandIn(cs: seq<Sq.Change>, rs: seq<Sq.Change>, p: (string, string)) returns (r: Sq.Change)
    requires Sq.Squashed(cs, rs) && CreatesAndUpdates(cs) && Sq.Group(cs, p) != []
    ensures r in rs && r.RowKey() == p && Sq.StandsFor(Sq.Group(cs, p), r)
  {
    hide Sq.Vanishes, Sq.StandsFor, Sq.Fails;
    var g := Sq.Group(cs, p);
    Sq.GroupOrder(cs, p);
    assert g[0] in g && g[0] in cs && g[0].RowKey() == p;
    assert CreatesAndUpdates(g);
    NothingVanishes(g);
    r :| r in rs && r.RowKey() == g[0].RowKey();
  }

  /** Block application refines sequential application: after the block, each
      live row is the old one, or the defaults, overwritten by every raw change
      to it in ordinal order. */
  lemma BlockRefinesSequential(s: State, t: State, n: nat, cs: seq<Sq.Change>, run: seq<Sq.Change>, rs: seq<Sq.Change>,
                               changes: BlockChanges, registry: Registry, zeros: Zeros, k: Key)
    requires 0 < n && Sq.SortOf(cs, run) && Sq.Squashed(cs, rs) && CreatesAndUpdates(cs)
    requires forall r | r in rs :: r.table in s.tables && r.table in registry
    requires Carries(changes, Effects(s.tables, rs, registry)) && BlockStep(s, t, n, changes, zeros)
    requires k.table in s.tables && k.table in registry
    ensures k.table in t.tables
    ensures LiveFields(t.tables[k.table], k.id) ==
            if Raw(run, k) == [] then LiveFields(s.tables[k.table], k.id)
            else Some(OverwriteAll(registry[k.table].columns,
                                   BaseFields(s.tables[k.table], k.id, registry[k.table]), Raw(run, k)))
  {
    hide Sq.Squashed, Sq.SortOf, CreatesAndUpdates, Effects, SavedAs;
    EffectsAreSequential(s.tables, cs, run, rs, registry, k);
    var rows, after, ch := s.tables[k.table], t.tables[k.table], ChangesOf(changes, k.table);
    assert SavedAs(rows, after, n, ch);
    assert Saves(changes, k) <==> Live(ch, k.id);
    assert !Deletes(changes, k);
    LiveAfterSave(rows, after, n, ch, k.id);
  }
}
