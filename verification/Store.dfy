/** The PostgreSQL store: tables, cursor and persistent cache, changed in place. */
module Stores {
  import opened Prelude
  import opened BlockRanges
  import opened VersionedRows
  import opened History
  import opened EntityCaches
  import opened StoreSpec

  /** A table and the next value of its vid sequence. */
  datatype Table = Table(rows: Rows, nextVid: Vid)

  /** Entities to save, by id; null deletes the id. */
  type Pending = map<Id, Entity?>

  ghost predicate TableOk(t: Table) {
    WellFormed(t.rows) && forall v | v in t.rows :: v < t.nextVid
  }

  ghost function EntitiesOf(p: Pending): set<Entity> {
    set id | id in p && p[id] != null :: p[id]
  }

  ghost predicate FiledUnderOwnKey(p: Pending, x: TableName)
    reads EntitiesOf(p)
  {
    forall id | id in p && p[id] != null :: p[id] in EntitiesOf(p) && p[id].FullKey() == Key(x, id)
  }

  ghost function PendingChanges(p: Pending): Changes
    reads EntitiesOf(p)
  {
    map id | id in p :: if p[id] == null then None else assert p[id] in EntitiesOf(p); Some(p[id].fields)
  }

  /** The entity carries the vid and start block of the open row of its id, or
      no block range when there is none. */
  ghost predicate FromStore(rows: Rows, e: EntityVal) {
    match e.range
    case None => forall v :: !IsOpenRow(rows, v, e.key.id)
    case Some(b) => IsOpenRow(rows, e.vid, e.key.id) && b.start == rows[e.vid].range.lower
  }

  ghost predicate AllFromStore(rows: Rows, p: Pending)
    reads EntitiesOf(p)
  {
    forall id | id in p && p[id] != null :: p[id] in EntitiesOf(p) && p[id].present && FromStore(rows, p[id].Val())
  }

  /** `UPDATE ... SET _updated_block_number, block_range ... WHERE vid = Q.vid` */
  function UpdateBlockRange(rows: Rows, n: nat, snips: map<Vid, Int4Range>): Rows {
    map v | v in rows :: if v in snips then rows[v].(range := snips[v], updated := n) else rows[v]
  }

  /** How PostgreSQL reads a printed block range. */
  function RangeOf(b: Bounds): Int4Range {
    Span(b.start, if b.end > 0 then Some(b.end) else None)
  }

  /** The columns an INSERT takes from an entity. */
  function ToRow(e: EntityVal): Row {
    Row(e.key.id, if e.range.Some? then RangeOf(e.range.value) else Empty, e.updated, e.fields)
  }

  /** `SELECT id, block_range, vid ... WHERE id = $1 ORDER BY block_range DESC LIMIT 1` */
  method EntityForID(rows: Rows, id: Id) returns (latest: Option<Vid>)
    requires WellFormed(rows)
    ensures latest.Some? ==> latest.value in rows && rows[latest.value].id == id && IsLatest(rows, latest.value)
    ensures latest.None? ==> forall v | v in rows :: rows[v].id != id
  {
    latest := None;
    var todo := rows.Keys;
    while todo != {}
      invariant todo <= rows.Keys
      invariant latest.Some? ==> latest.value in rows && rows[latest.value].id == id
      invariant forall v | v in rows && v !in todo && rows[v].id == id ::
                  latest.Some? && rows[v].range.AtMost(rows[latest.value].range)
    {
      var v :| v in todo;
      todo := todo - {v};
      if rows[v].id == id && (latest.None? || !rows[v].range.AtMost(rows[latest.value].range)) {
        latest := Some(v);
      }
    }
  }

  /** The pair that batchSave's first loop adds for one id, if any: a vid and its new range. */
  method SnipFor(rows: Rows, n: nat, p: Pending, id: Id) returns (snip: Option<(Vid, Int4Range)>)
    requires WellFormed(rows) && Below(rows, n)
    requires id in p && (p[id] != null ==> p[id].id == id)
    requires p[id] != null ==> FromStore(rows, p[id].Val())
    ensures snip.None? ==> forall v | v in rows && rows[v].id == id :: !ClosedBySave(rows, PendingChanges(p), v)
    ensures snip.Some? ==> var (v, r) := snip.value;
                           && v in rows && rows[v].id == id && ClosedBySave(rows, PendingChanges(p), v)
                           && r == Span(rows[v].range.lower, Some(n))
  {
    var ent := p[id];
    if ent == null {
      var latest := EntityForID(rows, id);
      if latest.None? {
        return None;
      }
      var r := Scanned(rows[latest.value].range);
      return Some((latest.value, RangeOf(Bounds(r.start, n))));
    }
    assert ent in EntitiesOf(p);
    if ent.range.None? {
      assert forall v | v in rows && rows[v].id == id :: !IsOpenRow(rows, v, id);
      return None;
    }
    return Some((ent.vid, RangeOf(Bounds(ent.range.value.start, n))));
  }

  /** The block range half of batchSave. */
  method CloseRanges(rows: Rows, n: nat, p: Pending) returns (closed: Rows)
    requires WellFormed(rows) && Below(rows, n)
    requires forall id | id in p && p[id] != null :: p[id].id == id
    requires AllFromStore(rows, p)
    ensures closed == CloseRows(rows, n, PendingChanges(p))
  {
    hide SnipsFor, FromStore;
    ghost var changes := PendingChanges(p);
    var snips: map<Vid, Int4Range> := map[];
    var todo := p.Keys;
    NoSnips(rows, n, changes, todo);
    while todo != {}
      invariant todo <= p.Keys
      invariant SnipsFor(rows, n, changes, snips, todo)
    {
      var id :| id in todo;
      var snip := SnipFor(rows, n, p, id);
      AddSnip(rows, n, changes, snips, todo, id, snip);
      if snip.Some? {
        snips := snips[snip.value.0 := snip.value.1];
      }
      todo := todo - {id};
    }
    closed := rows;
    if |snips| > 0 {
      closed := UpdateBlockRange(rows, n, snips);
    }
    SnipsClose(rows, n, changes, snips);
  }

  /** The pairs collected for the ids not in todo. */
  ghost predicate SnipsFor(rows: Rows, n: nat, changes: Changes, snips: map<Vid, Int4Range>, todo: set<Id>) {
    && (forall v | v in snips ::
          && v in rows && rows[v].id !in todo && rows[v].range.Span? && ClosedBySave(rows, changes, v)
          && snips[v] == Span(rows[v].range.lower, Some(n)))
    && (forall v | v in rows && rows[v].id !in todo && ClosedBySave(rows, changes, v) :: v in snips)
  }

  lemma NoSnips(rows: Rows, n: nat, changes: Changes, todo: set<Id>)
    requires changes.Keys <= todo
    ensures SnipsFor(rows, n, changes, map[], todo)
  {
  }

  lemma AddSnip(rows: Rows, n: nat, changes: Changes, snips: map<Vid, Int4Range>, todo: set<Id>, id: Id,
                snip: Option<(Vid, Int4Range)>)
    requires WellFormed(rows) && SnipsFor(rows, n, changes, snips, todo) && id in todo
    requires snip.None? ==> forall v | v in rows && rows[v].id == id :: !ClosedBySave(rows, changes, v)
    requires snip.Some? ==> var (v, r) := snip.value;
                            && v in rows && rows[v].id == id && ClosedBySave(rows, changes, v)
                            && r == Span(rows[v].range.lower, Some(n))
    ensures SnipsFor(rows, n, changes, if snip.Some? then snips[snip.value.0 := snip.value.1] else snips, todo - {id})
  {
    forall v | v in rows && rows[v].id == id && ClosedBySave(rows, changes, v)
      ensures snip.Some? && v == snip.value.0
    {
      OneClosedRow(rows, changes, v, snip.value.0);
    }
  }

  lemma SnipsClose(rows: Rows, n: nat, changes: Changes, snips: map<Vid, Int4Range>)
    requires WellFormed(rows) && Below(rows, n) && SnipsFor(rows, n, changes, snips, {})
    ensures UpdateBlockRange(rows, n, snips) == CloseRows(rows, n, changes)
    ensures snips == map[] ==> rows == CloseRows(rows, n, changes)
  {
  }

  // ---------------------------------------------------------------------
  // Inserting the new versions
  // ---------------------------------------------------------------------

  /** es lists the entities of p to insert, each once, in some order. */
  ghost predicate Lists(es: seq<Entity>, p: Pending, x: TableName)
    reads es
  {
    && (forall i | 0 <= i < |es| :: es[i].table == x && es[i].id in p && p[es[i].id] == es[i])
    && (forall i, j | 0 <= i < j < |es| :: es[i].id != es[j].id)
    && (forall id | id in p && p[id] != null :: p[id] in es && p[id].id == id)
  }

  function ContentsOf(es: seq<Entity>): (vals: seq<EntityVal>)
    reads es
    ensures |vals| == |es| && forall i | 0 <= i < |es| :: vals[i] == es[i].Val()
  {
    seq(|es|, i requires 0 <= i < |es| reads es => es[i].Val())
  }

  /** The value of a freshly marked entity. */
  ghost predicate Marked(e: EntityVal, x: TableName, n: nat, changes: Changes) {
    && Live(changes, e.key.id)
    && e == EntityVal(Key(x, e.key.id), 0, Some(Bounds(n, 0)), n, true, changes[e.key.id].value)
  }

  /** One marked entity for each id to save, in insertion order. */
  ghost predicate MarkedVals(vals: seq<EntityVal>, x: TableName, n: nat, changes: Changes) {
    && (forall i | 0 <= i < |vals| :: Marked(vals[i], x, n, changes))
    && (forall i, j | 0 <= i < j < |vals| :: vals[i].key != vals[j].key)
    && (forall id | Live(changes, id) :: exists i :: 0 <= i < |vals| && vals[i].key.id == id)
  }

  ghost predicate ReadyToSave(e: Entity, x: TableName, id: Id, changes: Changes)
    reads e
  {
    e.FullKey() == Key(x, id) && e.present && id in changes && changes[id] == Some(e.fields)
  }

  /** The second loop of batchSave: resets vid, opens the range at n, sets the updated number. */
  method MarkNew(n: nat, x: TableName, p: Pending, ghost changes: Changes) returns (es: seq<Entity>)
    requires changes.Keys == p.Keys && forall id | id in p && p[id] == null :: changes[id] == None
    requires forall id | id in p && p[id] != null :: ReadyToSave(p[id], x, id, changes)
    modifies EntitiesOf(p)
    ensures Lists(es, p, x) && MarkedVals(ContentsOf(es), x, n, changes)
    ensures forall id | id in p && p[id] != null :: ReadyToSave(p[id], x, id, changes)
  {
    es := [];
    var todo := p.Keys;
    while todo != {}
      invariant todo <= p.Keys
      invariant forall id | id in p && p[id] != null :: ReadyToSave(p[id], x, id, changes)
      invariant forall i | 0 <= i < |es| :: es[i].id in p && es[i].id !in todo && p[es[i].id] == es[i]
      invariant forall i | 0 <= i < |es| :: Marked(es[i].Val(), x, n, changes)
      invariant forall i, j | 0 <= i < j < |es| :: es[i].id != es[j].id
      invariant forall id | id in p && p[id] != null && id !in todo :: p[id] in es
    {
      var id :| id in todo;
      todo := todo - {id};
      var ent := p[id];
      if ent != null {
        assert ent in EntitiesOf(p);
        ent.vid := 0;
        ent.range := Some(Bounds(n, 0));
        ent.updated := n;
        es := es + [ent];
      }
    }
    ListedMarked(es, n, x, p, changes);
  }

  lemma ListedMarked(es: seq<Entity>, n: nat, x: TableName, p: Pending, changes: Changes)
    requires Lists(es, p, x) && forall i | 0 <= i < |es| :: Marked(es[i].Val(), x, n, changes)
    requires changes.Keys == p.Keys && forall id | id in p && p[id] == null :: changes[id] == None
    requires forall id | id in p && p[id] != null :: ReadyToSave(p[id], x, id, changes)
    ensures MarkedVals(ContentsOf(es), x, n, changes)
  {
    forall id | Live(changes, id)
      ensures exists i :: 0 <= i < |es| && ContentsOf(es)[i].key.id == id
    {
      var i :| 0 <= i < |es| && es[i] == p[id];
      assert ContentsOf(es)[i].key.id == id;
    }
  }

  /** The ids of one multi-row INSERT by vid: vids are handed out in insertion order. */
  function VidsOf(vals: seq<EntityVal>, first: Vid): (vids: map<Vid, Id>)
    ensures forall v :: v in vids <==> first <= v < first + |vals|
    ensures forall v | v in vids :: vids[v] == vals[v - first].key.id
  {
    if vals == [] then map[]
    else VidsOf(vals[..|vals| - 1], first)[first + |vals| - 1 := vals[|vals| - 1].key.id]
  }

  /** The rows of that INSERT. */
  function InsertedRows(vals: seq<EntityVal>, first: Vid): Rows
  {
    map v | v in VidsOf(vals, first) :: ToRow(vals[v - first])
  }

  lemma MarkedAssigns(t: Table, n: nat, x: TableName, changes: Changes, vals: seq<EntityVal>)
    requires TableOk(t) && MarkedVals(vals, x, n, changes)
    ensures Assigns(t.rows, changes, VidsOf(vals, t.nextVid))
  {
    hide VidsOf, WellFormed;
    var vids := VidsOf(vals, t.nextVid);
    forall id | Live(changes, id)
      ensures exists v :: v in vids && vids[v] == id
    {
      var i :| 0 <= i < |vals| && vals[i].key.id == id;
      assert t.nextVid + i in vids;
    }
    forall v, w | v in vids && w in vids && vids[v] == vids[w]
      ensures v == w
    {
      MarkedOnce(n, x, changes, vals, v - t.nextVid, w - t.nextVid);
    }
    forall v | v in vids
      ensures Live(changes, vids[v]) && v !in t.rows
    {
      assert Live(changes, vals[v - t.nextVid].key.id);
    }
  }

  lemma MarkedOnce(n: nat, x: TableName, changes: Changes, vals: seq<EntityVal>, i: nat, j: nat)
    requires MarkedVals(vals, x, n, changes) && i < |vals| && j < |vals| && vals[i].key.id == vals[j].key.id
    ensures i == j
  {
    assert vals[i].key == vals[j].key;
  }

  lemma MarkedRow(e: EntityVal, x: TableName, n: nat, changes: Changes, v: Vid)
    requires Marked(e, x, n, changes)
    ensures ToRow(e) == NewRow(n, changes, e.key.id)
    ensures e.(vid := v) == Loaded(x, v, NewRow(n, changes, e.key.id))
  {
  }

  lemma InsertedIsNew(n: nat, x: TableName, changes: Changes, vals: seq<EntityVal>, first: Vid, v: Vid)
    requires v in VidsOf(vals, first) && Marked(vals[v - first], x, n, changes)
    ensures Live(changes, VidsOf(vals, first)[v])
    ensures InsertedRows(vals, first)[v] == NewRow(n, changes, VidsOf(vals, first)[v])
  {
    MarkedRow(vals[v - first], x, n, changes, v);
  }

  lemma InsertedAreNew(n: nat, x: TableName, changes: Changes, vals: seq<EntityVal>, first: Vid)
    requires MarkedVals(vals, x, n, changes)
    requires forall v | v in VidsOf(vals, first) :: Live(changes, VidsOf(vals, first)[v])
    ensures InsertedRows(vals, first) == NewRows(n, changes, VidsOf(vals, first))
  {
    forall v | v in VidsOf(vals, first)
      ensures InsertedRows(vals, first)[v] == NewRow(n, changes, VidsOf(vals, first)[v])
    {
      assert Marked(vals[v - first], x, n, changes);
      InsertedIsNew(n, x, changes, vals, first, v);
    }
  }

  /** Closing and inserting together are a save of the block. */
  lemma InsertIsSave(t: Table, n: nat, x: TableName, changes: Changes, vals: seq<EntityVal>)
    requires TableOk(t) && Below(t.rows, n) && 0 < n && MarkedVals(vals, x, n, changes)
    ensures var after := CloseRows(t.rows, n, changes) + InsertedRows(vals, t.nextVid);
            && SavedAs(t.rows, after, n, changes)
            && forall v | v in after :: v < t.nextVid + |vals|
  {
    hide VidsOf, ClosedBySave, ToRow, Marked, WellFormed;
    var vids := VidsOf(vals, t.nextVid);
    MarkedAssigns(t, n, x, changes, vals);
    InsertedAreNew(n, x, changes, vals, t.nextVid);
    assert CloseRows(t.rows, n, changes) + InsertedRows(vals, t.nextVid) == SaveRows(t.rows, n, changes, vids);
  }

  lemma InsertedAgrees(first: Vid, n: nat, x: TableName, changes: Changes, vals: seq<EntityVal>, i: nat,
                       after: Rows)
    requires i < |vals| && Marked(vals[i], x, n, changes)
    requires first + i in after && after[first + i] == InsertedRows(vals, first)[first + i]
    ensures AgreesWithVid(after, vals[i], first + i, x)
  {
    MarkedRow(vals[i], x, n, changes, first + i);
    InsertedIsNew(n, x, changes, vals, first, first + i);
  }

  // ---------------------------------------------------------------------
  // The store
  // ---------------------------------------------------------------------

  ghost predicate IsPending(p: Pending, x: TableName, k: Key) {
    k.table == x && k.id in p && p[k.id] != null
  }

  /** after is the cache map before, with the entities of p filed on top. */
  ghost predicate FiledOver(before: map<Key, Entity>, after: map<Key, Entity>, p: Pending, x: TableName) {
    && (forall k | k in before :: k in after)
    && (forall k | k in after :: IsPending(p, x, k) || (k in before && after[k] == before[k]))
    && (forall k | IsPending(p, x, k) :: k in after && after[k] == p[k.id])
  }

  ghost predicate AllCurrent(rows: VersionedRows.Rows, p: Pending, x: TableName)
    reads EntitiesOf(p)
  {
    forall id | id in p && p[id] != null ::
      p[id] in EntitiesOf(p) && IsCurrent(rows, Key(x, id), p[id].Val())
  }

  /** What BatchSave receives: per table, the entities to save. */
  type Updates = map<TableName, Pending>

  ghost function AllEntities(updates: Updates): set<Entity> {
    set x, id | x in updates && id in updates[x] && updates[x][id] != null :: updates[x][id]
  }

  /** An entity belongs to one table, so tables share no entities. */
  ghost predicate OfOwnTable(updates: Updates) {
    forall x, id | x in updates && id in updates[x] && updates[x][id] != null :: updates[x][id].table == x
  }

  ghost function ChangesIn(updates: Updates): BlockChanges
    reads AllEntities(updates)
  {
    map x | x in updates :: assert EntitiesOf(updates[x]) <= AllEntities(updates); PendingChanges(updates[x])
  }

  /** The entities to save at one table are filed under their keys and come from the store. */
  ghost predicate Savable(rows: Rows, p: Pending, x: TableName)
    reads EntitiesOf(p)
  {
    FiledUnderOwnKey(p, x) && AllFromStore(rows, p)
  }

  /** Not yet saved: the entities of table x still hold the changes ch. */
  ghost predicate ToStage(t: Table, p: Pending, x: TableName, ch: Changes)
    reads EntitiesOf(p)
  {
    Savable(t.rows, p, x) && PendingChanges(p) == ch
  }

  /** Saved but not committed: after is the table to be, and the entities describe its new rows. */
  ghost predicate IsStaged(t: Table, after: Table, n: nat, p: Pending, x: TableName, ch: Changes)
    reads EntitiesOf(p)
  {
    TableOk(after) && SavedAs(t.rows, after.rows, n, ch) && AllCurrent(after.rows, p, x)
  }

  /** Where the save of table x stands: not begun, or done with the table after. */
  ghost predicate Progress(t: Table, after: Option<Table>, n: nat, p: Pending, x: TableName, ch: Changes)
    reads EntitiesOf(p)
  {
    match after
    case None => ToStage(t, p, x, ch)
    case Some(a) => IsStaged(t, a, n, p, x, ch)
  }

  function Get<K, V>(m: map<K, V>, k: K): Option<V> {
    if k in m then Some(m[k]) else None
  }

  ghost predicate AllProgress(tables: map<TableName, Table>, staged: map<TableName, Table>, n: nat, updates: Updates,
                              changes: BlockChanges)
    reads AllEntities(updates)
  {
    && updates.Keys == changes.Keys && updates.Keys <= tables.Keys
    && forall x | x in updates ::
         && EntitiesOf(updates[x]) <= AllEntities(updates)
         && Progress(tables[x], Get(staged, x), n, updates[x], x, changes[x])
  }

  ghost predicate IsUpdate(updates: Updates, k: Key) {
    k.table in updates && IsPending(updates[k.table], k.table, k)
  }

  /** after is the cache map before, with the entities of the tables done filed on top. */
  ghost predicate AllFiledOver(before: map<Key, Entity>, after: map<Key, Entity>, updates: Updates,
                               done: set<TableName>) {
    && (forall k | k in before :: k in after)
    && (forall k | k in after ::
          || (k.table in done && IsUpdate(updates, k))
          || (k in before && after[k] == before[k]))
    && (forall k: Key | k.table in done && IsUpdate(updates, k) :: k in after && after[k] == updates[k.table][k.id])
  }

  lemma FileOneMore(before: map<Key, Entity>, mid: map<Key, Entity>, after: map<Key, Entity>, updates: Updates,
                    done: set<TableName>, x: TableName)
    requires x in updates && x !in done
    requires AllFiledOver(before, mid, updates, done) && FiledOver(mid, after, updates[x], x)
    ensures AllFiledOver(before, after, updates, done + {x})
  {
  }

  /** What goes wrong while a batch is saved: the context was done before it began, a SQL statement
      failed when the saves of some tables had run, or the process stopped after some commits. */
  datatype Fault = NoFault | ContextDone | SqlError(staged: set<TableName>) | Crash(at: nat)

  /** How a block ends; it is rejected before it comes to the batch. */
  datatype Outcome = Rejected | Skipped | RolledBack | Stopped | Saved

  /** A stop after the last commit goes unnoticed. */
  predicate Answers(fault: Fault, r: Outcome) {
    match fault
    case NoFault => r.Saved?
    case ContextDone => r.Skipped?
    case SqlError(_) => r.RolledBack?
    case Crash(_) => r.Saved? || r.Stopped?
  }

  /** The changes of the tables in xs. */
  ghost function Part(changes: BlockChanges, xs: set<TableName>): BlockChanges {
    map x | x in changes && x in xs :: changes[x]
  }

  /** The tables are as before; the cache is what saving the tables in ran would have left. */
  ghost predicate RollbackStep(s: State, t: State, n: nat, changes: BlockChanges, zeros: Zeros, ran: set<TableName>) {
    t.tables == s.tables && exists u :: SaveStep(s, u, n, Part(changes, ran), zeros, {}) && t.cache == u.cache
  }

  class Store {
    const zeros: Zeros
    const persistentCache: EntityCache
    var tables: map<TableName, Table>
    var cursor: string
    /** The keys queried so far, in order. */
    ghost var queried: seq<Key>

    constructor (zeros: Zeros)
      ensures Valid() && fresh(this) && fresh(persistentCache)
      ensures this.zeros == zeros && cursor == "" && queried == []
      ensures View() == State(map x | x in zeros :: map[], map[])
    {
      this.zeros := zeros;
      persistentCache := new EntityCache();
      tables := map x | x in zeros :: Table(map[], 1);
      cursor := "";
      queried := [];
    }

    ghost predicate Valid()
      reads this, persistentCache, persistentCache.entityMap.Values
    {
      && persistentCache.Valid()
      && tables.Keys == zeros.Keys
      && (forall x | x in tables :: TableOk(tables[x]))
      && (forall k | k in persistentCache.entityMap :: k.table in tables)
    }

    ghost function View(): State
      reads this, persistentCache, persistentCache.entityMap.Values
    {
      State(RowsOf(tables), ValsIn(persistentCache.entityMap))
    }

    /** The last loop of batchSave: hands each entity its vid and files it in the cache. */
    method Publish(es: seq<Entity>, x: TableName, ghost p: Pending, first: Vid)
      requires Lists(es, p, x)
      modifies persistentCache`entityMap, (set e | e in es)`vid
      ensures forall i | 0 <= i < |es| :: es[i].vid == first + i
      ensures FiledOver(old(persistentCache.entityMap), persistentCache.entityMap, p, x)
    {
      hide FiledSoFar, ListKeys, Lists;
      ghost var before, keys := persistentCache.entityMap, KeysOf(es);
      ListedKeys(es, keys, p, x);
      FiledNone(before);
      for i := 0 to |es|
        invariant forall j | 0 <= j < i :: es[j].vid == first + j
        invariant forall j | 0 <= j < |es| :: es[j].FullKey() == keys[j]
        invariant FiledSoFar(before, persistentCache.entityMap, es[..i], keys[..i])
      {
        es[i].vid := first + i;
        ghost var mid := persistentCache.entityMap;
        persistentCache.SetEntity(es[i]);
        FileNext(before, mid, es, keys, i);
      }
      assert es[..|es|] == es && keys[..|es|] == keys;
      FiledAll(before, persistentCache.entityMap, es, keys, p, x);
    }

    method PublishAll(es: seq<Entity>, vals: seq<EntityVal>, x: TableName, ghost p: Pending, first: Vid)
      requires Lists(es, p, x) && vals == ContentsOf(es)
      modifies persistentCache`entityMap, (set e | e in es)`vid
      ensures Lists(es, p, x)
      ensures Published(es, vals, first)
      ensures FiledOver(old(persistentCache.entityMap), persistentCache.entityMap, p, x)
    {
      Publish(es, x, p, first);
    }

    /** The insert half of batchSave. */
    method InsertEntities(t: Table, closed: VersionedRows.Rows, n: nat, x: TableName, p: Pending,
                          ghost changes: Changes)
      returns (staged: Table)
      requires TableOk(t) && Below(t.rows, n) && 0 < n && closed == CloseRows(t.rows, n, changes)
      requires changes.Keys == p.Keys && forall id | id in p && p[id] == null :: changes[id] == None
      requires forall id | id in p && p[id] != null :: ReadyToSave(p[id], x, id, changes)
      modifies persistentCache`entityMap, EntitiesOf(p)
      ensures SavedAs(t.rows, staged.rows, n, changes) && forall v | v in staged.rows :: v < staged.nextVid
      ensures AllCurrent(staged.rows, p, x)
      ensures FiledOver(old(persistentCache.entityMap), persistentCache.entityMap, p, x)
    {
      var es := MarkNew(n, x, p, changes);
      var vals := ContentsOf(es);
      staged := Table(closed + InsertedRows(vals, t.nextVid), t.nextVid + |vals|);
      InsertIsSave(t, n, x, changes, vals);
      AllInsertedAgree(t, n, x, changes, vals, staged.rows);
      PublishAll(es, vals, x, p, t.nextVid);
      PublishedAgree(es, vals, t.nextVid, x, p, staged.rows);
    }

    /** Saves one table's entities; the new table becomes visible when its transaction commits. */
    method SaveTable(n: nat, x: TableName, p: Pending) returns (staged: Table)
      requires x in tables && TableOk(tables[x]) && 0 < n && Below(tables[x].rows, n)
      requires FiledUnderOwnKey(p, x) && AllFromStore(tables[x].rows, p)
      modifies persistentCache`entityMap, EntitiesOf(p)
      ensures IsStaged(tables[x], staged, n, p, x, old(PendingChanges(p)))
      ensures FiledOver(old(persistentCache.entityMap), persistentCache.entityMap, p, x)
    {
      ghost var changes := PendingChanges(p);
      var closed := CloseRanges(tables[x].rows, n, p);
      staged := InsertEntities(tables[x], closed, n, x, p, changes);
      SavedIsWellFormed(tables[x].rows, staged.rows, n, changes);
    }

    /** Saving one table leaves the entities of the other tables alone. */
    method StageOne(n: nat, x: TableName, updates: Updates, ghost changes: BlockChanges, ghost before: map<Key, Entity>,
                    staged: map<TableName, Table>) returns (more: map<TableName, Table>)
      requires x in updates && x !in staged && OfOwnTable(updates)
      requires AllProgress(tables, staged, n, updates, changes)
      requires TableOk(tables[x]) && 0 < n && Below(tables[x].rows, n)
      requires AllFiledOver(before, persistentCache.entityMap, updates, staged.Keys)
      modifies persistentCache`entityMap, AllEntities(updates)
      ensures more.Keys == staged.Keys + {x}
      ensures AllProgress(tables, more, n, updates, changes)
      ensures AllFiledOver(before, persistentCache.entityMap, updates, more.Keys)
    {
      ghost var mid := persistentCache.entityMap;
      assert Progress(tables[x], Get(staged, x), n, updates[x], x, changes[x]);
      assert forall y | y in updates && y != x :: EntitiesOf(updates[y]) !! EntitiesOf(updates[x]);
      var t := SaveTable(n, x, updates[x]);
      FileOneMore(before, mid, persistentCache.entityMap, updates, staged.Keys, x);
      more := staged[x := t];
      assert forall y :: Get(more, y) == if y == x then Some(t) else Get(staged, y);
    }

    /** Runs every table's save inside its own transaction, in map order. */
    method StageAll(n: nat, updates: Updates, ghost changes: BlockChanges)
      returns (staged: map<TableName, Table>, order: seq<TableName>)
      requires 0 < n && OfOwnTable(updates) && AllProgress(tables, map[], n, updates, changes)
      requires forall x | x in updates :: TableOk(tables[x]) && Below(tables[x].rows, n)
      modifies persistentCache`entityMap, AllEntities(updates)
      ensures forall x :: (x in staged <==> x in updates) && (x in staged <==> x in order)
      ensures AllProgress(tables, staged, n, updates, changes)
      ensures AllFiledOver(old(persistentCache.entityMap), persistentCache.entityMap, updates, staged.Keys)
    {
      hide AllProgress;
      staged, order := map[], [];
      var todo := updates.Keys;
      while todo != {}
        invariant forall x :: x in updates <==> x in todo || x in staged
        invariant forall x | x in todo :: x !in staged
        invariant AllProgress(tables, staged, n, updates, changes)
        invariant forall x :: x in staged <==> x in order
        invariant AllFiledOver(old(persistentCache.entityMap), persistentCache.entityMap, updates, staged.Keys)
      {
        var x :| x in todo;
        todo := todo - {x};
        staged := StageOne(n, x, updates, changes, old(persistentCache.entityMap), staged);
        order := order + [x];
      }
    }

    /** Commits the transactions in order, the cursor's last; a failed commit panics. */
    method MustCommit(order: seq<TableName>, staged: map<TableName, Table>, newCursor: string, crashAt: Option<nat>)
      returns (done: bool)
      requires (forall x :: x in staged <==> x in order) && forall x | x in order :: x in tables
      modifies this`tables, this`cursor
      ensures done <==> crashAt.None? || |order| < crashAt.value
      ensures tables.Keys == old(tables.Keys)
      ensures done ==> cursor == newCursor && forall x | x in tables ::
                tables[x] == if x in staged then staged[x] else old(tables)[x]
      ensures !done ==> crashAt.Some? && cursor == old(cursor) && forall x | x in tables ::
                tables[x] == if x in order[..crashAt.value] then staged[x] else old(tables)[x]
    {
      var i := 0;
      while i < |order|
        invariant i <= |order| && (crashAt.Some? ==> i <= crashAt.value)
        invariant tables.Keys == old(tables.Keys) && cursor == old(cursor)
        invariant forall x | x in tables :: tables[x] == if x in order[..i] then staged[x] else old(tables)[x]
      {
        if crashAt == Some(i) {
          return false;
        }
        assert order[..i + 1] == order[..i] + [order[i]];
        tables := tables[order[i] := staged[order[i]]];
        i := i + 1;
      }
      assert order[..i] == order;
      if crashAt == Some(i) {
        return false;
      }
      cursor := newCursor;
      done := true;
    }

    /** Runs every table's save; what is cached for other keys stays as it was. */
    method StageBlock(n: nat, updates: Updates, ghost changes: BlockChanges, ghost s: State)
      returns (staged: map<TableName, Table>, order: seq<TableName>)
      requires Valid() && 0 < n && updates.Keys <= tables.Keys && OfOwnTable(updates)
      requires forall x | x in tables :: Below(tables[x].rows, n)
      requires forall x | x in updates :: Savable(tables[x].rows, updates[x], x)
      requires s == View() && changes == ChangesIn(updates)
      modifies persistentCache`entityMap, AllEntities(updates)
      ensures forall x :: (x in staged <==> x in updates) && (x in staged <==> x in order)
      ensures AllProgress(tables, staged, n, updates, changes)
      ensures AllFiledOver(old(persistentCache.entityMap), persistentCache.entityMap, updates, staged.Keys)
      ensures Describes(changes, updates) && KeptAs(old(persistentCache.entityMap), s, updates)
    {
      hide Savable, AllProgress, AllFiledOver, ChangesIn, TableOk, Below, IsUpdate, Describes;
      BeginProgress(tables, updates, n);
      KeptEntities(persistentCache.entityMap, updates);
      staged, order := StageAll(n, updates, changes);
    }

    /** Every table in a transaction, then the commits, the cursor's last. */
    method SaveAndCommit(n: nat, updates: Updates, newCursor: string, crashAt: Option<nat>, ghost changes: BlockChanges)
      returns (done: bool)
      requires Valid() && 0 < n && updates.Keys <= tables.Keys && OfOwnTable(updates)
      requires forall x | x in tables :: Below(tables[x].rows, n)
      requires forall x | x in updates :: Savable(tables[x].rows, updates[x], x)
      requires changes == ChangesIn(updates)
      modifies this`tables, this`cursor, persistentCache`entityMap, AllEntities(updates)
      ensures crashAt.None? ==> done
      ensures done ==> Valid() && SaveStep(old(View()), View(), n, changes, zeros, {}) && cursor == newCursor
      ensures !done ==> CrashedIn(old(RowsOf(tables)), RowsOf(tables), n, changes) && cursor == old(cursor)
    {
      hide Savable, AllProgress, AllFiledOver, CrashedIn, SaveStep, ChangesIn, TableOk, Below, Describes, KeptAs;
      ghost var s, before := View(), persistentCache.entityMap;
      var staged, order := StageBlock(n, updates, changes, s);
      done := MustCommit(order, staged, newCursor, crashAt);
      if done {
        FinishBlock(old(tables), staged, tables, s, View(), before, persistentCache.entityMap, updates, n, changes,
          zeros);
      } else {
        CrashLeaves(old(tables), staged, tables, n, updates, changes);
      }
    }

    /** Saves one block, unless its context is done already. A SQL error rolls every transaction
        back; a stop of the process leaves a prefix of the commits behind. */
    method BatchSave(n: nat, updates: Updates, newCursor: string, fault: Fault, final: set<Key>,
                     ghost changes: BlockChanges) returns (r: Outcome)
      requires Valid() && 0 < n && updates.Keys <= tables.Keys && OfOwnTable(updates)
      requires forall x | x in tables :: Below(tables[x].rows, n)
      requires forall x | x in updates :: Savable(tables[x].rows, updates[x], x)
      requires changes == ChangesIn(updates)
      modifies this`tables, this`cursor, persistentCache`entityMap, AllEntities(updates)
      ensures Answers(fault, r) && cursor == if r.Saved? then newCursor else old(cursor)
      ensures !r.Stopped? ==> Valid()
      ensures r.Saved? ==> SaveStep(old(View()), View(), n, changes, zeros, if n % 100 == 0 then final else {})
      ensures r.Skipped? ==> View() == old(View()) && tables == old(tables)
      ensures r.RolledBack? ==>
                RollbackStep(old(View()), View(), n, changes, zeros, fault.staged) && tables == old(tables)
      ensures r.Stopped? ==> CrashedIn(old(RowsOf(tables)), RowsOf(tables), n, changes)
    {
      hide SaveStep, CrashedIn, ChangesIn, Savable, TableOk, RollbackStep;
      if fault.ContextDone? {
        return Skipped;
      }
      if fault.SqlError? {
        StageAndRollBack(n, updates, fault.staged, changes);
        return RolledBack;
      }
      var done := SaveAndCommit(n, updates, newCursor, if fault.Crash? then Some(fault.at) else None, changes);
      if done && n % 100 == 0 {
        ghost var t := View();
        label before:
        persistentCache.PurgeCache(final);
        PurgedView(old@before(persistentCache.entityMap), persistentCache.entityMap, final);
        PurgeKeepsSaveStep(old(View()), t, View(), final, n, changes, zeros);
      }
      r := if done then Saved else Stopped;
    }

    /** Some tables' saves ran before the error; their transactions are rolled back,
        but what they wrote into the entities and the cache stays. */
    method StageAndRollBack(n: nat, updates: Updates, ran: set<TableName>, ghost changes: BlockChanges)
      requires Valid() && 0 < n && updates.Keys <= tables.Keys && OfOwnTable(updates)
      requires forall x | x in tables :: Below(tables[x].rows, n)
      requires forall x | x in updates :: Savable(tables[x].rows, updates[x], x)
      requires changes == ChangesIn(updates)
      modifies persistentCache`entityMap, AllEntities(updates)
      ensures Valid() && RollbackStep(old(View()), View(), n, changes, zeros, ran)
    {
      hide Savable, AllProgress, AllFiledOver, SaveStep, ChangesIn, TableOk, Below, Describes, KeptAs;
      ghost var s, before := View(), persistentCache.entityMap;
      var part := map x | x in updates && x in ran :: updates[x];
      PartOfUpdates(updates, ran, part);
      ghost var partly := ChangesIn(part);
      var staged, order := StageBlock(n, part, partly, s);
      ghost var t := State(RowsOf(tables + staged), View().cache);
      FinishBlock(tables, staged, tables + staged, s, t, before, persistentCache.entityMap, part, n, partly, zeros);
      assert SaveStep(s, t, n, partly, zeros, {}) && partly == Part(changes, ran);
    }

    /** Fills a blank entity from the cache or, failing that, from the row live
        before block n; whatever is found or not found is cached by reference. */
    method Load(ent: Entity, n: nat)
      requires Valid() && ent.table in tables && Below(tables[ent.table].rows, n)
      requires ent.Val() == Blank(ent.FullKey(), zeros[ent.table])
      modifies ent, persistentCache, this`queried
      ensures Valid() && LoadStep(old(View()), View(), old(ent.FullKey()), zeros)
      ensures old(ent.FullKey()) in View().cache && ent.Val() == View().cache[old(ent.FullKey())]
      ensures queried == old(queried) +
                if old(ent.FullKey()) in old(persistentCache.entityMap) then [] else [old(ent.FullKey())]
      ensures persistentCache.entityMap ==
                if old(ent.FullKey()) in old(persistentCache.entityMap) then old(persistentCache.entityMap)
                else old(persistentCache.entityMap)[old(ent.FullKey()) := ent]
    {
      hide Below, Agrees, LoadStep, TableOk;
      var k := ent.FullKey();
      ghost var s := View();
      var found := persistentCache.GetEntity(k, ent);
      SameVals(persistentCache.entityMap, s.cache);
      if found {
        LoadedStep(s, View(), k, ent.Val(), zeros);
        return;
      }
      queried := queried + [k];
      assert View() == s;
      QueryAndCache(ent, n);
      assert View().cache == s.cache[k := ent.Val()];
      LoadedStep(s, View(), k, ent.Val(), zeros);
    }

    /** The miss path of Load. */
    method QueryAndCache(ent: Entity, n: nat)
      requires Valid() && ent.table in tables && Below(tables[ent.table].rows, n)
      requires ent.Val() == Blank(ent.FullKey(), zeros[ent.table]) && ent.FullKey() !in persistentCache.entityMap
      modifies ent, persistentCache`entityMap
      ensures Valid() && ent.FullKey() == old(ent.FullKey())
      ensures persistentCache.entityMap == old(persistentCache.entityMap)[ent.FullKey() := ent]
      ensures View() == State(old(View()).tables, old(View()).cache[ent.FullKey() := ent.Val()])
      ensures Agrees(tables[ent.table].rows, ent.FullKey(), ent.Val(), zeros[ent.table])
    {
      hide Below, Agrees;
      ghost var before, vals := persistentCache.entityMap, ValsIn(persistentCache.entityMap);
      assert forall k | k in before :: before[k] != ent;
      Query(ent, tables[ent.table].rows, n);
      SameVals(before, vals);
      persistentCache.SetEntity(ent);
      ValsOfMore(before, ent);
    }

    /** `SELECT * ... WHERE id = '%s' and block_range @> %d LIMIT 1`, scanned into ent. */
    method Query(ent: Entity, rows: VersionedRows.Rows, n: nat)
      requires ent.table in zeros && ent.Val() == Blank(ent.FullKey(), zeros[ent.table])
      requires WellFormed(rows) && Below(rows, n)
      modifies ent
      ensures ent.FullKey() == old(ent.FullKey())
      ensures Agrees(rows, ent.FullKey(), ent.Val(), zeros[ent.table])
      ensures ent.present <==> exists v :: v in rows && rows[v].id == ent.id && rows[v].range.Contains(n)
      ensures ent.present ==>
                && ent.vid in rows && rows[ent.vid].id == ent.id && rows[ent.vid].range.Contains(n)
                && ent.updated == rows[ent.vid].updated && ent.fields == rows[ent.vid].fields
                && ent.range.Some? && ent.range.value.start == rows[ent.vid].range.lower
      ensures !ent.present ==> ent.Val() == old(ent.Val())
    {
      if v :| v in rows && rows[v].id == ent.id && rows[v].range.Contains(n) {
        ent.vid, ent.range := v, Some(Scanned(rows[v].range));
        ent.updated, ent.fields := rows[v].updated, rows[v].fields;
        ent.present := true;
      }
    }

    method InvalidateAll(x: TableName, ids: set<Id>)
      requires persistentCache.Valid()
      modifies persistentCache`entityMap
      ensures persistentCache.Valid()
      ensures persistentCache.entityMap ==
                map k | k in old(persistentCache.entityMap) && !(k.table == x && k.id in ids) ::
                  old(persistentCache.entityMap)[k]
    {
      ghost var before := persistentCache.entityMap;
      var todo := ids;
      while todo != {}
        invariant todo <= ids && persistentCache.Valid()
        invariant persistentCache.entityMap
                  == map k | k in before && !(k.table == x && k.id in ids && k.id !in todo) :: before[k]
      {
        var id :| id in todo;
        todo := todo - {id};
        persistentCache.Invalidate(Key(x, id));
      }
    }

    /** One table of a fork cleanup: the DELETE, then the UPDATE, each returning ids to invalidate. */
    method CleanUpTable(x: TableName, b: nat)
      requires persistentCache.Valid() && x in tables
      modifies this`tables, persistentCache`entityMap
      ensures persistentCache.Valid()
      ensures tables == old(tables)[x := old(tables)[x].(rows := ForkRows(old(tables)[x].rows, b))]
      ensures persistentCache.entityMap == map k | k in old(persistentCache.entityMap)
                && !(k.table == x && ReturnedByFork(old(tables)[x].rows, b, k.id)) :: old(persistentCache.entityMap)[k]
    {
      hide DeletedByFork, ReopenedByFork, ForkRow;
      var rows := tables[x].rows;
      var deleted := set v | v in rows && DeletedByFork(rows[v], b) :: rows[v].id;
      var kept := map v | v in rows && !DeletedByFork(rows[v], b) :: rows[v];
      InvalidateAll(x, deleted);
      var reopened := set v | v in kept && ReopenedByFork(kept[v], b) :: kept[v].id;
      ReturnedIds(rows, b, deleted, kept, reopened);
      kept := map v | v in kept :: ForkRow(kept[v], b);
      assert kept == ForkRows(rows, b);
      InvalidateAll(x, reopened);
      tables := tables[x := tables[x].(rows := kept)];
    }

    /** Undoes every block from b on, table by table. */
    method CleanUpFork(b: nat)
      requires Valid()
      modifies this`tables, persistentCache`entityMap
      ensures Valid() && ForkStep(old(View()), View(), b)
    {
      hide CleanedUp, TableOk;
      ghost var before, cached := tables, persistentCache.entityMap;
      NothingCleanedUp(before, cached, b);
      var todo := tables.Keys;
      while todo != {}
        invariant todo <= tables.Keys && persistentCache.Valid()
        invariant CleanedUp(before, cached, tables, persistentCache.entityMap, b, todo)
      {
        var x :| x in todo;
        ghost var tables', cached' := tables, persistentCache.entityMap;
        CleanUpTable(x, b);
        CleanUpOneMore(before, cached, tables', cached', tables, persistentCache.entityMap, b, todo, x);
        todo := todo - {x};
      }
      AllCleanedUp(before, cached, tables, persistentCache.entityMap, b);
    }

    /** Undoes block n + 1, table by table; the cache is left alone. */
    method CleanDataAtBlock(n: nat)
      modifies this`tables
      ensures RowsOf(tables) == map x | x in old(tables) :: RecoverRows(old(tables)[x].rows, n)
    {
      ghost var before := tables;
      var todo := tables.Keys;
      while todo != {}
        invariant todo <= before.Keys && tables.Keys == before.Keys
        invariant forall x | x in todo :: tables[x] == before[x]
        invariant forall x | x in before && x !in todo :: tables[x].rows == RecoverRows(before[x].rows, n)
      {
        var x :| x in todo;
        todo := todo - {x};
        var rows := tables[x].rows;
        rows := map v | v in rows && !DeletedByRecovery(rows[v], n) :: rows[v];
        rows := map v | v in rows :: RecoverRow(rows[v], n);
        tables := tables[x := tables[x].(rows := rows)];
      }
    }
  }

  function KeysOf(es: seq<Entity>): (keys: seq<Key>)
    reads es
    ensures |keys| == |es| && forall i | 0 <= i < |es| :: keys[i] == es[i].FullKey()
  {
    seq(|es|, i requires 0 <= i < |es| reads es => es[i].FullKey())
  }

  /** now is before with the entities es filed under their keys. */
  ghost predicate FiledSoFar(before: map<Key, Entity>, now: map<Key, Entity>, es: seq<Entity>, keys: seq<Key>) {
    && |keys| == |es|
    && (forall k | k in before :: k in now)
    && (forall k | k in now :: k in keys || (k in before && now[k] == before[k]))
    && (forall j | 0 <= j < |es| :: keys[j] in now && now[keys[j]] == es[j])
  }

  lemma FiledNone(before: map<Key, Entity>)
    ensures FiledSoFar(before, before, [], [])
  {
  }

  lemma FileNext(before: map<Key, Entity>, now: map<Key, Entity>, es: seq<Entity>, keys: seq<Key>, i: nat)
    requires i < |es| == |keys| && FiledSoFar(before, now, es[..i], keys[..i])
    requires forall j | 0 <= j < i :: keys[j] != keys[i]
    ensures FiledSoFar(before, now[keys[i] := es[i]], es[..i + 1], keys[..i + 1])
  {
    var now', keys' := now[keys[i] := es[i]], keys[..i + 1];
    assert keys' == keys[..i] + [keys[i]];
    forall j | 0 <= j <= i
      ensures keys'[j] in now' && now'[keys'[j]] == es[..i + 1][j]
    {
      if j < i {
        assert keys[..i][j] == keys[j] && es[..i][j] == es[j];
      }
    }
  }

  lemma FiledAll(before: map<Key, Entity>, now: map<Key, Entity>, es: seq<Entity>, keys: seq<Key>, p: Pending,
                 x: TableName)
    requires FiledSoFar(before, now, es, keys) && ListKeys(es, keys, p, x)
    ensures FiledOver(before, now, p, x)
  {
    forall k | k in keys
      ensures IsPending(p, x, k) && k in now && now[k] == p[k.id]
    {
      var j :| 0 <= j < |keys| && keys[j] == k;
    }
  }

  /** The keys of the entities of p, as they are listed in es. */
  ghost predicate ListKeys(es: seq<Entity>, keys: seq<Key>, p: Pending, x: TableName) {
    && |keys| == |es|
    && (forall j | 0 <= j < |es| :: IsPending(p, x, keys[j]) && p[keys[j].id] == es[j])
    && (forall i, j | 0 <= i < j < |es| :: keys[i] != keys[j])
    && (forall k | IsPending(p, x, k) :: k in keys)
  }

  lemma ListedKeys(es: seq<Entity>, keys: seq<Key>, p: Pending, x: TableName)
    requires Lists(es, p, x) && keys == KeysOf(es)
    ensures ListKeys(es, keys, p, x) && forall i, j | 0 <= i < j < |es| :: keys[i] != keys[j]
  {
    forall k | IsPending(p, x, k)
      ensures k in keys
    {
      var j :| 0 <= j < |es| && es[j] == p[k.id];
      assert keys[j] == k;
    }
  }

  lemma LoadedStep(s: State, t: State, k: Key, e: EntityVal, zeros: Zeros)
    requires t.tables == s.tables && k.table in s.tables && k.table in zeros
    requires if k in s.cache then t == s
             else t.cache == s.cache[k := e] && Agrees(s.tables[k.table], k, e, zeros[k.table])
    ensures LoadStep(s, t, k, zeros)
  {
  }

  lemma ReturnedIds(rows: VersionedRows.Rows, b: nat, deleted: set<Id>, kept: VersionedRows.Rows, reopened: set<Id>)
    requires deleted == set v | v in rows && DeletedByFork(rows[v], b) :: rows[v].id
    requires kept == map v | v in rows && !DeletedByFork(rows[v], b) :: rows[v]
    requires reopened == set v | v in kept && ReopenedByFork(kept[v], b) :: kept[v].id
    ensures forall id :: ReturnedByFork(rows, b, id) <==> id in deleted || id in reopened
  {
    hide DeletedByFork, ReopenedByFork;
    forall id | ReturnedByFork(rows, b, id)
      ensures id in deleted || id in reopened
    {
      var v :| v in rows && rows[v].id == id && (DeletedByFork(rows[v], b) || ReopenedByFork(rows[v], b));
      if !DeletedByFork(rows[v], b) { assert v in kept && kept[v].id in reopened; }
    }
  }

  /** Part way through a fork cleanup: the tables in todo and their entries are untouched. */
  ghost predicate CleanedUp(before: map<TableName, Table>, cached: map<Key, Entity>, now: map<TableName, Table>,
                            entries: map<Key, Entity>, b: nat, todo: set<TableName>) {
    && now.Keys == before.Keys
    && (forall x | x in before ::
          now[x] == if x in todo then before[x] else before[x].(rows := ForkRows(before[x].rows, b)))
    && entries == map k | k in cached && !Gone(before, b, todo, k) :: cached[k]
  }

  ghost predicate Gone(before: map<TableName, Table>, b: nat, todo: set<TableName>, k: Key) {
    k.table in before && k.table !in todo && ReturnedByFork(before[k.table].rows, b, k.id)
  }

  lemma NothingCleanedUp(before: map<TableName, Table>, cached: map<Key, Entity>, b: nat)
    ensures CleanedUp(before, cached, before, cached, b, before.Keys)
  {
  }

  lemma CleanUpOneMore(before: map<TableName, Table>, cached: map<Key, Entity>, tables: map<TableName, Table>,
                       entries: map<Key, Entity>, tables': map<TableName, Table>, entries': map<Key, Entity>, b: nat,
                       todo: set<TableName>, x: TableName)
    requires x in before && x in todo && CleanedUp(before, cached, tables, entries, b, todo)
    requires tables' == tables[x := tables[x].(rows := ForkRows(tables[x].rows, b))]
    requires entries' ==
             map k | k in entries && !(k.table == x && ReturnedByFork(tables[x].rows, b, k.id)) :: entries[k]
    ensures CleanedUp(before, cached, tables', entries', b, todo - {x})
  {
    hide ForkRows, ReturnedByFork;
  }

  lemma AllCleanedUp(before: map<TableName, Table>, cached: map<Key, Entity>, now: map<TableName, Table>,
                     entries: map<Key, Entity>, b: nat)
    requires CleanedUp(before, cached, now, entries, b, {})
    requires forall x | x in before :: TableOk(before[x])
    ensures now.Keys == before.Keys && (forall x | x in now :: TableOk(now[x])) && entries.Keys <= cached.Keys
    ensures ForkStep(State(RowsOf(before), ValsIn(cached)), State(RowsOf(now), ValsIn(entries)), b)
  {
    hide ForkRows, ReturnedByFork, TableOk;
    forall x | x in before { ForkTableOk(before[x], b); }
  }

  lemma ForkTableOk(t: Table, b: nat)
    requires TableOk(t)
    ensures TableOk(t.(rows := ForkRows(t.rows, b)))
  {
    ForkWellFormed(t.rows, b);
  }

  lemma BeginProgress(tables: map<TableName, Table>, updates: Updates, n: nat)
    requires updates.Keys <= tables.Keys && forall x | x in updates :: Savable(tables[x].rows, updates[x], x)
    ensures AllProgress(tables, map[], n, updates, ChangesIn(updates))
    ensures Describes(ChangesIn(updates), updates)
    ensures forall x | x in updates :: FiledUnderOwnKey(updates[x], x)
  {
  }

  lemma EndProgress(tables: map<TableName, Table>, staged: map<TableName, Table>, updates: Updates, n: nat,
                    changes: BlockChanges)
    requires AllProgress(tables, staged, n, updates, changes) && staged.Keys == updates.Keys
    ensures forall x | x in updates :: AllCurrent(staged[x].rows, updates[x], x)
  {
    hide IsCurrent, SavedAs, TableOk, ToStage;
    forall x | x in updates
      ensures AllCurrent(staged[x].rows, updates[x], x)
    {
      assert Progress(tables[x], Get(staged, x), n, updates[x], x, changes[x]);
    }
  }

  function RowsOf(tables: map<TableName, Table>): map<TableName, VersionedRows.Rows> {
    map x | x in tables :: tables[x].rows
  }

  ghost function ValsIn(m: map<Key, Entity>): map<Key, EntityVal>
    reads m.Values
  {
    map k | k in m :: m[k].Val()
  }

  lemma SameVals(m: map<Key, Entity>, vals: map<Key, EntityVal>)
    requires vals.Keys == m.Keys && forall k | k in m :: m[k].Val() == vals[k]
    ensures ValsIn(m) == vals
  {
  }

  lemma ValsOfMore(m: map<Key, Entity>, e: Entity)
    ensures ValsIn(m[e.FullKey() := e]) == ValsIn(m)[e.FullKey() := e.Val()]
  {
  }

  lemma PurgedView(m: map<Key, Entity>, less: map<Key, Entity>, final: set<Key>)
    requires less == m - final
    ensures ValsIn(less) == ValsIn(m) - final
  {
  }

  lemma PartOfUpdates(updates: Updates, ran: set<TableName>, part: Updates)
    requires part == map x | x in updates && x in ran :: updates[x]
    ensures AllEntities(part) <= AllEntities(updates) && (OfOwnTable(updates) ==> OfOwnTable(part))
    ensures ChangesIn(part) == Part(ChangesIn(updates), ran)
  {
    forall e | e in AllEntities(part)
      ensures e in AllEntities(updates)
    {
      var x, id :| x in part && id in part[x] && part[x][id] == e;
      assert updates[x] == part[x];
    }
  }

  /** A save gives each row it saves a range that starts at its block. */
  lemma SavedRowIsNew(rows: VersionedRows.Rows, after: VersionedRows.Rows, n: nat, changes: Changes, v: Vid, id: Id)
    requires SavedAs(rows, after, n, changes) && Live(changes, id) && IsOpenRow(after, v, id)
    ensures after[v].range.lower == n
  {
    var vids :| Assigns(rows, changes, vids) && after == SaveRows(rows, n, changes, vids);
    if v in vids {
      assert after[v] == NewRow(n, changes, vids[v]);
    }
  }

  /** A batch that was rolled back keeps a coherent cache coherent exactly when it had saved no
      entity: a saved one is cached with a row that the rollback took away. */
  lemma RollbackCoherentIff(s: State, t: State, n: nat, changes: BlockChanges, zeros: Zeros, ran: set<TableName>)
    requires Coherent(s, zeros) && RollbackStep(s, t, n, changes, zeros, ran)
    ensures Coherent(t, zeros) <==> forall k | Saves(changes, k) :: k.table !in ran
  {
    hide SavedAs, Agrees;
    var part := Part(changes, ran);
    var u :| SaveStep(s, u, n, part, zeros, {}) && t.cache == u.cache;
    forall k: Key
      ensures Saves(part, k) <==> Saves(changes, k) && k.table in ran
    {
    }
    forall k | Saves(part, k)
      ensures k in t.cache && !CoherentAt(t, k, zeros)
    {
      SavedEntryIsStale(s, u, n, part, zeros, k);
    }
    forall k | k in t.cache && !Saves(part, k)
      ensures CoherentAt(t, k, zeros)
    {
      assert CoherentAt(s, k, zeros);
    }
  }

  lemma SavedEntryIsStale(s: State, u: State, n: nat, changes: BlockChanges, zeros: Zeros, k: Key)
    requires SaveStep(s, u, n, changes, zeros, {}) && Saves(changes, k)
    ensures k in u.cache && k.table in s.tables && !Agrees(s.tables[k.table], k, u.cache[k], zeros[k.table])
  {
    hide SavedAs;
    assert k in u.cache && EntryAfterBlock(s, u, changes, zeros, k);
    var rows, after := s.tables[k.table], u.tables[k.table];
    assert SavedAs(rows, after, n, ChangesOf(changes, k.table));
    SavedRowIsNew(rows, after, n, ChangesOf(changes, k.table), u.cache[k].vid, k.id);
    assert Below(rows, n) by { SavedIsBelow(rows, after, n, ChangesOf(changes, k.table)); }
  }

  lemma SavedIsBelow(rows: VersionedRows.Rows, after: VersionedRows.Rows, n: nat, changes: Changes)
    requires SavedAs(rows, after, n, changes)
    ensures Below(rows, n)
  {
  }

  /** All committed: the tables and the cache are those of a successful block. */
  lemma FinishBlock(old': map<TableName, Table>, staged: map<TableName, Table>, now: map<TableName, Table>, s: State,
                    t: State, before: map<Key, Entity>, after: map<Key, Entity>, updates: Updates, n: nat,
                    changes: BlockChanges, zeros: Zeros)
    requires forall x | x in old' :: TableOk(old'[x]) && Below(old'[x].rows, n)
    requires AllProgress(old', staged, n, updates, changes) && (forall x :: x in staged <==> x in updates)
    requires now.Keys == old'.Keys == zeros.Keys && updates.Keys <= old'.Keys
    requires forall x | x in now :: now[x] == if x in staged then staged[x] else old'[x]
    requires s.tables == RowsOf(old') && t == State(RowsOf(now), ValsIn(after))
    requires AllFiledOver(before, after, updates, staged.Keys)
    requires Describes(changes, updates) && KeptAs(before, s, updates)
    ensures SaveStep(s, t, n, changes, zeros, {})
    ensures forall x | x in now :: TableOk(now[x])
    ensures forall k | k in after :: after[k].FullKey() == k && k.table in now
  {
    hide Saves, IsUpdate, AllCurrent, AllFiledOver, EntryAfterBlock, AllProgress, SavedAs, TableOk, Below;
    assert staged.Keys == updates.Keys == changes.Keys;
    hide Describes, KeptAs;
    forall x | x in old'
      ensures SavedAs(s.tables[x], t.tables[x], n, ChangesOf(changes, x)) && TableOk(now[x])
    {
      CommittedTable(old', staged, n, updates, changes, x);
    }
    EndProgress(old', staged, updates, n, changes);
    ViewAfterBatch(s, t, before, after, updates, changes, zeros);
    CacheKeys(s, t, before, after, updates, changes);
  }

  /** The batch caches what it saved and drops nothing. */
  lemma CacheKeys(s: State, t: State, before: map<Key, Entity>, after: map<Key, Entity>, updates: Updates,
                  changes: BlockChanges)
    requires AllFiledOver(before, after, updates, updates.Keys) && Describes(changes, updates)
             && KeptAs(before, s, updates)
    requires t.cache == map k | k in after :: after[k].Val()
    ensures forall k :: k in t.cache <==> k in s.cache || Saves(changes, k)
    ensures forall k | k in s.cache && k in t.cache && !Saves(changes, k) :: t.cache[k] == s.cache[k]
  {
    hide Saves, IsUpdate;
    forall k: Key
      ensures k in t.cache <==> k in s.cache || Saves(changes, k)
    {
      UpdateHasTable(updates, k);
    }
  }

  lemma UpdateHasTable(updates: Updates, k: Key)
    ensures IsUpdate(updates, k) ==> k.table in updates
  {
  }

  lemma PurgeKeepsSaveStep(s: State, t: State, u: State, final: set<Key>, n: nat, changes: BlockChanges, zeros: Zeros)
    requires SaveStep(s, t, n, changes, zeros, {}) && PurgeStep(t, u, final)
    ensures SaveStep(s, u, n, changes, zeros, final)
  {
    hide SavedAs;
    forall k | k in u.cache
      ensures EntryAfterBlock(s, u, changes, zeros, k)
    {
      assert EntryAfterBlock(s, t, changes, zeros, k);
    }
  }

  /** A cached entity that the batch will overwrite is filed under a key of the batch. */
  lemma KeptEntities(before: map<Key, Entity>, updates: Updates)
    requires forall k | k in before :: before[k].FullKey() == k
    requires forall x | x in updates :: FiledUnderOwnKey(updates[x], x)
    ensures forall k | k in before && !IsUpdate(updates, k) :: before[k] !in AllEntities(updates)
  {
  }

  ghost predicate Describes(changes: BlockChanges, updates: Updates) {
    changes.Keys == updates.Keys && forall k :: Saves(changes, k) <==> IsUpdate(updates, k)
  }

  /** The cached entities that no update replaces still read as in s. */
  ghost predicate KeptAs(before: map<Key, Entity>, s: State, updates: Updates)
    reads before.Values
  {
    && before.Keys == s.cache.Keys
    && (forall k | k in before :: k.table in s.tables)
    && (forall k | k in before && !IsUpdate(updates, k) :: before[k].Val() == s.cache[k] && before[k].FullKey() == k)
  }

  /** Each table is as it was, or saved and committed. */
  ghost predicate CrashedIn(before: map<TableName, VersionedRows.Rows>, after: map<TableName, VersionedRows.Rows>,
                            n: nat,
                            changes: BlockChanges) {
    && after.Keys == before.Keys
    && forall x | x in before :: LeftByCrash(before[x], after[x], n, ChangesOf(changes, x))
  }

  /** What BatchSave leaves behind when it stops in block n + 1, once cleaned at
      block n by a process with an empty cache, is a crash step. */
  lemma CrashThenClean(s: State, mid: map<TableName, VersionedRows.Rows>, after: map<TableName, VersionedRows.Rows>,
                       n: nat,
                       changes: BlockChanges)
    requires CrashedIn(s.tables, mid, n + 1, changes)
    requires after == map x | x in mid :: RecoverRows(mid[x], n)
    ensures CrashStep(s, State(after, map[]), n, changes)
  {
    hide LeftByCrash, RecoverRows;
    forall x | x in s.tables
      ensures RecoveredAs(s.tables[x], after[x], n, ChangesOf(changes, x))
    {
      assert LeftByCrash(s.tables[x], mid[x], n + 1, ChangesOf(changes, x));
    }
  }

  lemma NothingSaved(rows: VersionedRows.Rows, n: nat)
    requires WellFormed(rows) && Below(rows, n)
    ensures SavedAs(rows, rows, n, map[])
  {
    assert Assigns(rows, map[], map[]);
    assert rows == SaveRows(rows, n, map[], map[]);
  }

  lemma SavedMayBeLeft(rows: VersionedRows.Rows, after: VersionedRows.Rows, n: nat, changes: Changes)
    requires SavedAs(rows, after, n, changes)
    ensures LeftByCrash(rows, rows, n, changes) && LeftByCrash(rows, after, n, changes)
  {
    var vids :| Assigns(rows, changes, vids) && after == SaveRows(rows, n, changes, vids);
    assert PartlySaved(rows, rows, n, changes, vids) && PartlySaved(rows, after, n, changes, vids);
  }

  /** One table of a block, committed or not. */
  lemma CommittedTable(old': map<TableName, Table>, staged: map<TableName, Table>, n: nat, updates: Updates,
                       changes: BlockChanges, x: TableName)
    requires x in old' && TableOk(old'[x]) && Below(old'[x].rows, n)
    requires AllProgress(old', staged, n, updates, changes) && staged.Keys == updates.Keys
    ensures SavedAs(old'[x].rows, (if x in staged then staged[x] else old'[x]).rows, n, ChangesOf(changes, x))
    ensures TableOk(if x in staged then staged[x] else old'[x])
  {
    hide SavedAs, WellFormed, Below;
    if x in updates {
      assert Progress(old'[x], Get(staged, x), n, updates[x], x, changes[x]);
    } else {
      NothingSaved(old'[x].rows, n);
    }
  }

  lemma CrashLeaves(old': map<TableName, Table>, staged: map<TableName, Table>, now: map<TableName, Table>, n: nat,
                    updates: Updates, changes: BlockChanges)
    requires forall x | x in old' :: TableOk(old'[x]) && Below(old'[x].rows, n)
    requires AllProgress(old', staged, n, updates, changes) && (forall x :: x in staged <==> x in updates)
    requires now.Keys == old'.Keys
    requires forall x | x in now :: now[x] == old'[x] || (x in staged && now[x] == staged[x])
    ensures CrashedIn(RowsOf(old'), RowsOf(now), n, changes)
  {
    hide AllProgress, LeftByCrash, TableOk, Below;
    assert staged.Keys == updates.Keys;
    forall x | x in old'
      ensures LeftByCrash(old'[x].rows, now[x].rows, n, ChangesOf(changes, x))
    {
      CommittedTable(old', staged, n, updates, changes, x);
      SavedMayBeLeft(old'[x].rows, (if x in staged then staged[x] else old'[x]).rows, n, ChangesOf(changes, x));
    }
  }

  /** The cache after a block: saved entities current, the others as they were. */
  lemma CacheAfterBatch(s: State, t: State, before: map<Key, Entity>, after: map<Key, Entity>, updates: Updates,
                        changes: BlockChanges, zeros: Zeros, k: Key)
    requires updates.Keys == changes.Keys && updates.Keys <= s.tables.Keys
             && t.tables.Keys == s.tables.Keys <= zeros.Keys
    requires AllFiledOver(before, after, updates, updates.Keys)
    requires Saves(changes, k) <==> IsUpdate(updates, k)
    requires forall x | x in updates :: AllCurrent(t.tables[x], updates[x], x)
    requires k in before ==> k in s.cache && k.table in s.tables
    requires k in before && !IsUpdate(updates, k) ==> before[k].Val() == s.cache[k] && before[k].FullKey() == k
    requires k in after && k in t.cache && t.cache[k] == after[k].Val()
    ensures EntryAfterBlock(s, t, changes, zeros, k) && after[k].FullKey() == k && k.table in s.tables
  {
    if IsUpdate(updates, k) {
      assert after[k] == updates[k.table][k.id];
    }
  }

  lemma ViewAfterBatch(s: State, t: State, before: map<Key, Entity>, after: map<Key, Entity>, updates: Updates,
                       changes: BlockChanges, zeros: Zeros)
    requires updates.Keys == changes.Keys && updates.Keys <= s.tables.Keys
             && t.tables.Keys == s.tables.Keys <= zeros.Keys
    requires AllFiledOver(before, after, updates, updates.Keys)
    requires Describes(changes, updates) && KeptAs(before, s, updates)
    requires forall x | x in updates :: AllCurrent(t.tables[x], updates[x], x)
    requires t.cache == map k | k in after :: after[k].Val()
    ensures forall k | k in t.cache :: EntryAfterBlock(s, t, changes, zeros, k)
    ensures forall k | k in after :: after[k].FullKey() == k && k.table in s.tables
  {
    hide Saves, IsUpdate, AllCurrent, AllFiledOver, EntryAfterBlock;
    forall k | k in after
      ensures EntryAfterBlock(s, t, changes, zeros, k) && after[k].FullKey() == k && k.table in s.tables
    {
      CacheAfterBatch(s, t, before, after, updates, changes, zeros, k);
    }
  }

  lemma AllInsertedAgree(t: Table, n: nat, x: TableName, changes: Changes, vals: seq<EntityVal>,
                         after: VersionedRows.Rows)
    requires TableOk(t) && Below(t.rows, n) && MarkedVals(vals, x, n, changes)
    requires after == CloseRows(t.rows, n, changes) + InsertedRows(vals, t.nextVid)
    ensures InsertedAllCurrent(after, vals, t.nextVid, x)
  {
    hide AgreesWithVid, Marked, WellFormed, ClosedBySave, ToRow, VidsOf;
    forall i | 0 <= i < |vals|
      ensures AgreesWithVid(after, vals[i], t.nextVid + i, x)
    {
      assert Marked(vals[i], x, n, changes);
      InsertedAgrees(t.nextVid, n, x, changes, vals, i, after);
    }
  }

  ghost predicate AgreesWithVid(rows: VersionedRows.Rows, e: EntityVal, v: Vid, x: TableName) {
    e.key.table == x && IsCurrent(rows, e.key, e.(vid := v))
  }

  ghost predicate InsertedAllCurrent(
    rows: VersionedRows.Rows, vals: seq<EntityVal>, first: Vid, x: TableName)
  {
    forall i | 0 <= i < |vals| :: AgreesWithVid(rows, vals[i], first + i, x)
  }

  ghost predicate Published(es: seq<Entity>, vals: seq<EntityVal>, first: Vid)
    reads es
  {
    |es| == |vals| && forall i | 0 <= i < |es| :: es[i].Val() == vals[i].(vid := first + i)
  }

  lemma PublishedAgree(es: seq<Entity>, vals: seq<EntityVal>, first: Vid, x: TableName, p: Pending,
                       after: VersionedRows.Rows)
    requires Lists(es, p, x)
    requires Published(es, vals, first)
    requires InsertedAllCurrent(after, vals, first, x)
    ensures AllCurrent(after, p, x)
  {
    forall id | id in p && p[id] != null
      ensures p[id] in EntitiesOf(p) && IsCurrent(after, Key(x, id), p[id].Val())
    {
      var i :| 0 <= i < |es| && es[i] == p[id];
      assert AgreesWithVid(after, vals[i], first + i, x);
    }
  }
}
