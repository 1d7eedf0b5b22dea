/** Runs whose blocks all come from the return handler: the tables are the raw changes, replayed. */
module HandledRuns {
  import opened Prelude
  import opened VersionedRows
  import opened History
  import opened EntityCaches
  import opened StoreSpec
  import opened Runs
  import opened BlockEffects
  import opened Loaders
  import Sq = Squash

  /** The changes one block brought, as they came in. */
  datatype RawBlock = RawBlock(block: nat, changes: seq<Sq.Change>)

  // ---------------------------------------------------------------------
  // Replaying raw changes
  // ---------------------------------------------------------------------

  /** Row k after the blocks, starting from nothing: every change in turn, in ordinal
      order within its block, overwrites the row or the defaults of its type. */
  function Replayed(c: seq<RawBlock>, registry: Registry, k: Key): Option<Fields>
    requires k.table in registry
  {
    if c == [] then None else
    var before := Replayed(c[..|c| - 1], registry, k);
    var raw := Raw(Sq.ByOrdinal(c[|c| - 1].changes), k);
    var schema := registry[k.table];
    if raw == [] then before
    else Some(OverwriteAll(schema.columns, if before.Some? then before.value else schema.zero + schema.defaults, raw))
  }

  function RawBefore(c: seq<RawBlock>, b: nat): seq<RawBlock> {
    if c == [] then []
    else if c[|c| - 1].block < b then c
    else RawBefore(c[..|c| - 1], b)
  }

  /** The raw blocks that no later fork cleanup undid; raws[i] is what operation i was given. */
  function RawSurviving(ops: seq<Op>, raws: seq<seq<Sq.Change>>): seq<RawBlock>
    requires |raws| == |ops|
  {
    if ops == [] then [] else
    var m := |ops| - 1;
    var c := RawSurviving(ops[..m], raws[..m]);
    match ops[m]
    case Block(n, _) => c + [RawBlock(n, raws[m])]
    case Fork(b) => RawBefore(c, b)
    case _ => c
  }

  // ---------------------------------------------------------------------
  // Runs of handled blocks
  // ---------------------------------------------------------------------

  ghost predicate HandledStep(s: State, op: Op, t: State, raw: seq<Sq.Change>, registry: Registry, zeros: Zeros) {
    op.Block? ==> CreatesAndUpdates(raw) && exists rs :: HandledBlock(s, t, op.n, raw, rs, op.changes, registry, zeros)
  }

  /** Block numbers grow between fork cleanups, and what a crash loses deletes nothing. */
  ghost predicate InOrder(op: Op, c: seq<StoreSave>) {
    match op
    case Block(n, _) => Above(c, n)
    case Crash(n, lost) => Above(c, n + 1) && forall k :: !Deletes(lost, k)
    case _ => true
  }

  /** Handled blocks, fork cleanups, crashes, loads and purges from an empty store. */
  ghost predicate IsHandledRun(states: seq<State>, ops: seq<Op>, raws: seq<seq<Sq.Change>>, registry: Registry,
                               zeros: Zeros) {
    && IsTrace(states, ops, zeros) && CleanCrashes(ops) && |raws| == |ops|
    && (forall i | 0 <= i < |ops| :: HandledStep(states[i], ops[i], states[i + 1], raws[i], registry, zeros))
    && (forall i | 0 <= i < |ops| :: InOrder(ops[i], Surviving(ops[..i])))
  }

  lemma HandledRunPrefix(states: seq<State>, ops: seq<Op>, raws: seq<seq<Sq.Change>>, registry: Registry, zeros: Zeros,
                         m: nat)
    requires IsHandledRun(states, ops, raws, registry, zeros) && m <= |ops|
    ensures IsHandledRun(states[..m + 1], ops[..m], raws[..m], registry, zeros)
  {
    hide HandledStep, InOrder, Step, CleanCrashes;
    TracePrefix(states, ops, zeros, m);
    CleanPrefix(ops, m);
    forall i | 0 <= i < m
      ensures InOrder(ops[..m][i], Surviving(ops[..m][..i]))
    {
      assert ops[..m][..i] == ops[..i];
    }
  }

  /** A handled block deletes nothing, so a handled run is orderly. */
  lemma HandledStepIsOrderly(s: State, op: Op, t: State, raw: seq<Sq.Change>, registry: Registry, zeros: Zeros,
                             c: seq<StoreSave>)
    requires HandledStep(s, op, t, raw, registry, zeros) && InOrder(op, c)
    ensures Orderly(s, op, c)
  {
    hide Sq.Squashed, Known, Effects, BlockStep, Sequential, Above;
    if op.Block? {
      NoDeletesAreLive(s, op.changes);
    }
    if op.Crash? {
      NoDeletesAreLive(s, op.lost);
    }
  }

  lemma NoDeletesAreLive(s: State, changes: BlockChanges)
    requires forall k :: !Deletes(changes, k)
    ensures LiveDeletes(s, changes)
  {
    forall x, v | x in s.tables && x in changes && v in s.tables[x] && s.tables[x][v].id in changes[x]
      ensures changes[x][s.tables[x][v].id].Some?
    {
      assert !Deletes(changes, Key(x, s.tables[x][v].id));
    }
  }

  lemma HandledRunIsRun(states: seq<State>, ops: seq<Op>, raws: seq<seq<Sq.Change>>, registry: Registry, zeros: Zeros)
    requires IsHandledRun(states, ops, raws, registry, zeros)
    ensures IsRun(states, ops, zeros)
  {
    hide HandledStep, InOrder, Orderly, CleanCrashes, Step, Legal;
    forall i | 0 <= i < |ops|
      ensures Orderly(states[i], ops[i], Surviving(ops[..i]))
    {
      HandledStepIsOrderly(states[i], ops[i], states[i + 1], raws[i], registry, zeros, Surviving(ops[..i]));
    }
    CleanRunIsRun(states, ops, zeros);
  }

  // ---------------------------------------------------------------------
  // The surviving chain and the raw blocks say the same
  // ---------------------------------------------------------------------

  ghost function Lookup(live: map<Id, Fields>, id: Id): Option<Fields> {
    if id in live then Some(live[id]) else None
  }

  /** At every length, the chain's live entities of table x are the raw blocks replayed. */
  ghost predicate Mirrors(c: seq<StoreSave>, r: seq<RawBlock>, x: TableName, registry: Registry)
    requires x in registry
  {
    && |c| == |r| && (forall i | 0 <= i < |c| :: c[i].block == r[i].block)
    && (forall j, id | 0 <= j <= |c| ::
          Lookup(LiveAfter(TableChain(c, x)[..j]), id) == Replayed(r[..j], registry, Key(x, id)))
  }

  lemma {:induction false} CutsAlike(c: seq<StoreSave>, r: seq<RawBlock>, b: nat)
    requires |c| == |r| && forall i | 0 <= i < |c| :: c[i].block == r[i].block
    ensures |Cut(c, b)| == |RawBefore(r, b)| && Cut(c, b) <= c && RawBefore(r, b) <= r
  {
    if c == [] || c[|c| - 1].block < b {
    } else {
      CutsAlike(c[..|c| - 1], r[..|c| - 1], b);
    }
  }

  lemma CutMirrors(c: seq<StoreSave>, r: seq<RawBlock>, x: TableName, registry: Registry, b: nat)
    requires x in registry && Mirrors(c, r, x, registry)
    ensures Mirrors(Cut(c, b), RawBefore(r, b), x, registry)
  {
    hide LiveAfter, Replayed, Cut, RawBefore;
    CutsAlike(c, r, b);
    var c', r' := Cut(c, b), RawBefore(r, b);
    forall j, id | 0 <= j <= |c'|
      ensures Lookup(LiveAfter(TableChain(c', x)[..j]), id) == Replayed(r'[..j], registry, Key(x, id))
    {
      assert TableChain(c', x)[..j] == TableChain(c, x)[..j] && r'[..j] == r[..j];
    }
  }

  lemma SettledOpenRow(rows: Rows, v: Vid, id: Id)
    requires forall v | v in rows :: RowOk(rows[v])
    ensures IsOpenRow(rows, v, id) <==> IsOpenRow(Settled(rows), v, id)
    ensures IsOpenRow(rows, v, id) ==> v in Settled(rows) && rows[v].fields == Settled(rows)[v].fields
  {
  }

  lemma OpenRowIsLive(rows: Rows, chain: Chain, id: Id)
    requires Increasing(chain) && Represents(rows, chain)
    ensures id in LiveAfter(chain) <==> exists v :: IsOpenRow(rows, v, id)
    ensures forall v | IsOpenRow(rows, v, id) :: rows[v].fields == LiveAfter(chain)[id]
  {
    hide LiveAfter, Represents, Increasing;
    OpenRowsAreLive(rows, chain, id);
    if id in LiveAfter(chain) {
      var v :| v in rows && rows[v].id == id && rows[v].range.Open();
      assert IsOpenRow(rows, v, id);
    }
  }

  lemma LiveFieldsTrack(rows: Rows, chain: Chain, id: Id)
    requires Increasing(chain) && Tracks(rows, chain)
    ensures LiveFields(rows, id) == Lookup(LiveAfter(chain), id)
  {
    hide LiveAfter, Represents, Increasing, RowOk, Settled;
    OpenRowIsLive(Settled(rows), chain, id);
    forall v
      ensures IsOpenRow(rows, v, id) <==> IsOpenRow(Settled(rows), v, id)
      ensures IsOpenRow(rows, v, id) ==> v in Settled(rows) && rows[v].fields == Settled(rows)[v].fields
    {
      SettledOpenRow(rows, v, id);
    }
  }

  lemma BlockMirrors(s: State, t: State, n: nat, changes: BlockChanges, raw: seq<Sq.Change>, registry: Registry,
                     zeros: Zeros, c: seq<StoreSave>, r: seq<RawBlock>, x: TableName)
    requires HandledStep(s, Block(n, changes), t, raw, registry, zeros)
    requires x in registry && x in s.tables && x in t.tables
    requires TableTracks(s, c, x) && TableTracks(t, c + [StoreSave(n, changes)], x) && Mirrors(c, r, x, registry)
    ensures Mirrors(c + [StoreSave(n, changes)], r + [RawBlock(n, raw)], x, registry)
  {
    hide LiveAfter, Replayed, HandledStep, Tracks, Increasing;
    var c', r' := c + [StoreSave(n, changes)], r + [RawBlock(n, raw)];
    forall j, id | 0 <= j <= |c'|
      ensures Lookup(LiveAfter(TableChain(c', x)[..j]), id) == Replayed(r'[..j], registry, Key(x, id))
    {
      if j <= |c| {
        assert TableChain(c', x)[..j] == TableChain(c, x)[..j] && r'[..j] == r[..j];
      } else {
        assert TableChain(c', x)[..j] == TableChain(c', x) && r'[..j] == r' && r[..|r|] == r;
        assert TableChain(c, x)[..|c|] == TableChain(c, x);
        LiveFieldsTrack(s.tables[x], TableChain(c, x), id);
        LiveFieldsTrack(t.tables[x], TableChain(c', x), id);
        BlockReplays(s, t, n, changes, raw, registry, zeros, r, x, id);
      }
    }
  }

  /** One handled block replays its raw changes. */
  lemma BlockReplays(s: State, t: State, n: nat, changes: BlockChanges, raw: seq<Sq.Change>, registry: Registry,
                     zeros: Zeros, r: seq<RawBlock>, x: TableName, id: Id)
    requires HandledStep(s, Block(n, changes), t, raw, registry, zeros)
    requires x in registry && x in s.tables && x in t.tables
    requires LiveFields(s.tables[x], id) == Replayed(r, registry, Key(x, id))
    ensures LiveFields(t.tables[x], id) == Replayed(r + [RawBlock(n, raw)], registry, Key(x, id))
  {
    hide Sq.SortOf, Sq.Squashed, LiveFields, OverwriteAll, BlockStep, Carries, Effects, Raw;
    var run, k := Sq.ByOrdinal(raw), Key(x, id);
    Sq.ByOrdinalSorts(raw);
    assert (r + [RawBlock(n, raw)])[..|r|] == r;
    assert Sequential(s.tables, t.tables, raw, registry);
    assert Raw(run, k) == [] || Raw(run, k) != [];
  }

  lemma {:induction false} RunMirrors(states: seq<State>, ops: seq<Op>, raws: seq<seq<Sq.Change>>, registry: Registry,
                                      zeros: Zeros, x: TableName)
    requires IsHandledRun(states, ops, raws, registry, zeros) && x in states[0].tables && x in registry
    ensures Mirrors(Surviving(ops), RawSurviving(ops, raws), x, registry)
    decreases |ops|
  {
    hide HandledStep, InOrder, CleanCrashes, Step, Mirrors, TableTracks;
    if ops == [] {
      NothingMirrors(x, registry);
    } else {
      var m := |ops| - 1;
      HandledRunPrefix(states, ops, raws, registry, zeros, m);
      RunMirrors(states[..|ops|], ops[..m], raws[..m], registry, zeros, x);
      match ops[m] {
        case Block(n, changes) =>
          TablesTrack(states, ops, raws, registry, zeros, x, m);
          TablesTrack(states, ops, raws, registry, zeros, x, |ops|);
          assert ops[..|ops|] == ops;
          BlockMirrors(states[m], states[m + 1], n, changes, raws[m], registry, zeros, Surviving(ops[..m]),
                       RawSurviving(ops[..m], raws[..m]), x);
        case Fork(b) =>
          CutMirrors(Surviving(ops[..m]), RawSurviving(ops[..m], raws[..m]), x, registry, b);
        case _ =>
      }
    }
  }

  lemma NothingMirrors(x: TableName, registry: Registry)
    requires x in registry
    ensures Mirrors([], [], x, registry)
  {
  }

  lemma TablesTrack(states: seq<State>, ops: seq<Op>, raws: seq<seq<Sq.Change>>, registry: Registry, zeros: Zeros,
                    x: TableName, m: nat)
    requires IsHandledRun(states, ops, raws, registry, zeros) && x in states[0].tables && m <= |ops|
    ensures m < |states| && x in states[m].tables && TableTracks(states[m], Surviving(ops[..m]), x)
  {
    hide HandledStep, InOrder, CleanCrashes, Step, TableTracks, Legal;
    HandledRunIsRun(states, ops, raws, registry, zeros);
    RunPrefix(states, ops, zeros, m);
    RunTracks(states[..m + 1], ops[..m], zeros, x);
  }

  lemma {:induction false} BeforeIsRawBefore(c: seq<StoreSave>, r: seq<RawBlock>, b: nat, x: TableName)
    requires |c| == |r| && forall i | 0 <= i < |c| :: c[i].block == r[i].block
    ensures |Before(TableChain(c, x), b)| == |RawBefore(r, b)| && RawBefore(r, b) <= r
    ensures Before(TableChain(c, x), b) <= TableChain(c, x)
  {
    CutIsBefore(c, b, x);
    CutsAlike(c, r, b);
    assert forall i | 0 <= i < |Cut(c, b)| :: Cut(c, b)[i] == c[i];
  }

  /** After any run of handled blocks, fork cleanups and crashes, the row of an id that
      contains block m is what the raw changes of the surviving blocks up to m make of it. */
  lemma HandledTimeTravel(states: seq<State>, ops: seq<Op>, raws: seq<seq<Sq.Change>>, registry: Registry, zeros: Zeros,
                          x: TableName, m: nat, id: Id, f: Fields)
    requires IsHandledRun(states, ops, raws, registry, zeros) && x in states[0].tables && x in registry
    ensures x in states[|ops|].tables
    ensures AsOf(states[|ops|].tables[x], m, id, f) <==>
            Replayed(RawBefore(RawSurviving(ops, raws), m + 1), registry, Key(x, id)) == Some(f)
  {
    hide HandledStep, InOrder, CleanCrashes, Step, IsTrace, Legal, LiveAfter, Replayed;
    HandledRunIsRun(states, ops, raws, registry, zeros);
    RunMirrors(states, ops, raws, registry, zeros, x);
    RunTimeTravel(states, ops, zeros, x, m, id, f);
    var c, r := Surviving(ops), RawSurviving(ops, raws);
    BeforeIsRawBefore(c, r, m + 1, x);
    var j := |RawBefore(r, m + 1)|;
    assert Before(TableChain(c, x), m + 1) == TableChain(c, x)[..j] && RawBefore(r, m + 1) == r[..j];
  }
}
