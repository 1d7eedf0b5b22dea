/**
 Whole runs of the store: any interleaving of blocks, fork cleanups, crashes,
 loads and purges, and what the tables and the cache hold at the end.
 */
module Runs {
  import opened VersionedRows
  import opened History
  import opened EntityCaches
  import opened StoreSpec

  datatype Op =
    | Block(n: nat, changes: BlockChanges)
    | Fork(b: nat)
    | Crash(n: nat, lost: BlockChanges)
    | Load(k: Key)
    | Purge(final: set<Key>)

  /** The saves of a whole store, one entry a block. */
  datatype StoreSave = StoreSave(block: nat, changes: BlockChanges)

  ghost predicate Step(s: State, op: Op, t: State, zeros: Zeros) {
    match op
    case Block(n, changes) => BlockStep(s, t, n, changes, zeros)
    case Fork(b) => ForkStep(s, t, b)
    case Crash(n, lost) => CrashStep(s, t, n, lost)
    case Load(k) => LoadStep(s, t, k, zeros)
    case Purge(final) => PurgeStep(s, t, final)
  }

  // ---------------------------------------------------------------------
  // The surviving chain
  // ---------------------------------------------------------------------

  ghost function Cut(c: seq<StoreSave>, b: nat): seq<StoreSave> {
    if c == [] then []
    else if c[|c| - 1].block < b then c
    else Cut(c[..|c| - 1], b)
  }

  /** The saves that no later fork cleanup undid. */
  ghost function Surviving(ops: seq<Op>): seq<StoreSave> {
    if ops == [] then [] else
    var c := Surviving(ops[..|ops| - 1]);
    match ops[|ops| - 1]
    case Block(n, changes) => c + [StoreSave(n, changes)]
    case Fork(b) => Cut(c, b)
    case _ => c
  }

  /** What the chain does to one table. */
  ghost function TableChain(c: seq<StoreSave>, x: TableName): Chain {
    seq(|c|, i requires 0 <= i < |c| => Save(c[i].block, ChangesOf(c[i].changes, x)))
  }

  lemma {:induction false} CutIsBefore(c: seq<StoreSave>, b: nat, x: TableName)
    ensures TableChain(Cut(c, b), x) == Before(TableChain(c, x), b)
    ensures Cut(c, b) <= c
  {
    if c == [] || c[|c| - 1].block < b {
    } else {
      CutIsBefore(c[..|c| - 1], b, x);
      assert TableChain(c[..|c| - 1], x) == TableChain(c, x)[..|c| - 1];
    }
  }

  ghost predicate Above(c: seq<StoreSave>, n: nat) {
    0 < n && forall i | 0 <= i < |c| :: c[i].block < n
  }

  ghost predicate LiveDeletes(s: State, changes: BlockChanges) {
    forall x | x in s.tables && x in changes :: DeletesLive(s.tables[x], changes[x])
  }

  /** What the store demands of its callers: block numbers grow between fork
      cleanups, and deletes name live ids. */
  ghost predicate Orderly(s: State, op: Op, c: seq<StoreSave>) {
    match op
    case Block(n, changes) => Above(c, n) && LiveDeletes(s, changes)
    case Crash(n, lost) => Above(c, n + 1) && LiveDeletes(s, lost)
    case _ => true
  }

  /** ... and a recovery finds no row that it would misread. */
  ghost predicate Legal(s: State, op: Op, c: seq<StoreSave>) {
    Orderly(s, op, c) && (op.Crash? ==> forall x | x in s.tables :: !HasStale(s.tables[x], op.n))
  }

  /** Any sequence of steps from an empty store. */
  ghost predicate IsTrace(states: seq<State>, ops: seq<Op>, zeros: Zeros) {
    && |states| == |ops| + 1
    && states[0].cache == map[]
    && (forall x | x in states[0].tables :: states[0].tables[x] == map[])
    && (forall i | 0 <= i < |ops| :: Step(states[i], ops[i], states[i + 1], zeros))
    && (forall i | 0 <= i < |ops| :: ops[i].Block? ==> 0 < ops[i].n)
  }

  ghost predicate IsOrderlyRun(states: seq<State>, ops: seq<Op>, zeros: Zeros) {
    && IsTrace(states, ops, zeros)
    && (forall i | 0 <= i < |ops| :: Orderly(states[i], ops[i], Surviving(ops[..i])))
  }

  ghost predicate IsRun(states: seq<State>, ops: seq<Op>, zeros: Zeros) {
    && IsTrace(states, ops, zeros)
    && (forall i | 0 <= i < |ops| :: Legal(states[i], ops[i], Surviving(ops[..i])))
  }

  lemma TracePrefix(states: seq<State>, ops: seq<Op>, zeros: Zeros, m: nat)
    requires IsTrace(states, ops, zeros) && m <= |ops|
    ensures IsTrace(states[..m + 1], ops[..m], zeros)
  {
    hide Step;
    forall i | 0 <= i < m
      ensures Step(states[..m + 1][i], ops[..m][i], states[..m + 1][i + 1], zeros)
    {
    }
  }

  lemma OrderlyPrefix(states: seq<State>, ops: seq<Op>, zeros: Zeros, m: nat)
    requires IsOrderlyRun(states, ops, zeros) && m <= |ops|
    ensures IsOrderlyRun(states[..m + 1], ops[..m], zeros)
  {
    TracePrefix(states, ops, zeros, m);
    hide Orderly, IsTrace;
    forall i | 0 <= i < m
      ensures Orderly(states[..m + 1][i], ops[..m][i], Surviving(ops[..m][..i]))
    {
      assert ops[..m][..i] == ops[..i];
    }
  }

  lemma RunPrefix(states: seq<State>, ops: seq<Op>, zeros: Zeros, m: nat)
    requires IsRun(states, ops, zeros) && m <= |ops|
    ensures IsRun(states[..m + 1], ops[..m], zeros)
  {
    TracePrefix(states, ops, zeros, m);
    hide Legal, IsTrace;
    forall i | 0 <= i < m
      ensures Legal(states[..m + 1][i], ops[..m][i], Surviving(ops[..m][..i]))
    {
      assert ops[..m][..i] == ops[..i];
    }
  }

  // ---------------------------------------------------------------------
  // The row invariant
  // ---------------------------------------------------------------------

  lemma StepWellFormed(s: State, op: Op, t: State, zeros: Zeros, x: TableName)
    requires Step(s, op, t, zeros) && (op.Block? ==> 0 < op.n) && x in s.tables && WellFormed(s.tables[x])
    ensures x in t.tables && WellFormed(t.tables[x])
  {
    hide WellFormed, SavedAs, LeftByCrash, ForkRows, RecoverRows;
    match op
    case Block(n, changes) =>
      SavedIsWellFormed(s.tables[x], t.tables[x], n, ChangesOf(changes, x));
    case Fork(b) =>
      ForkWellFormed(s.tables[x], b);
    case Crash(n, lost) =>
      RecoveredIsWellFormed(s.tables[x], t.tables[x], n, ChangesOf(lost, x));
    case Load(k) =>
    case Purge(final) =>
  }

  lemma RecoveredIsWellFormed(rows: Rows, back: Rows, n: nat, changes: Changes)
    requires RecoveredAs(rows, back, n, changes)
    ensures WellFormed(back)
  {
    hide WellFormed, RecoverRows;
    var left :| LeftByCrash(rows, left, n + 1, changes) && back == RecoverRows(left, n);
    var vids :| Assigns(rows, changes, vids) && PartlySaved(rows, left, n + 1, changes, vids);
    RecoverWellFormed(rows, left, n, changes, vids);
  }

  /** After any sequence of steps, stale recoveries and deletes of dead ids included,
      the ranges of each id are non-empty and disjoint, at most one of them open,
      and each updated number matches its row. */
  lemma {:induction false} RunWellFormed(states: seq<State>, ops: seq<Op>, zeros: Zeros, x: TableName)
    requires IsTrace(states, ops, zeros) && x in states[0].tables
    ensures x in states[|ops|].tables && WellFormed(states[|ops|].tables[x])
    decreases |ops|
  {
    hide Step;
    if ops == [] {
    } else {
      var m := |ops| - 1;
      TracePrefix(states, ops, zeros, m);
      RunWellFormed(states[..|ops|], ops[..m], zeros, x);
      StepWellFormed(states[m], ops[m], states[m + 1], zeros, x);
    }
  }

  // ---------------------------------------------------------------------
  // What crashes leave behind
  // ---------------------------------------------------------------------

  /** A crash in this block may have left the block's number on the open row of key. */
  datatype Mark = Mark(block: nat, key: Key)

  ghost function Touched(changes: BlockChanges): set<Key> {
    set x, id | x in changes && id in changes[x] :: Key(x, id)
  }

  /** The marks of crashes that neither a save of the key nor a fork cleanup at or
      before the block has wiped out. They depend on the operations alone. */
  ghost function Marks(ops: seq<Op>): set<Mark> {
    if ops == [] then {} else
    var before := Marks(ops[..|ops| - 1]);
    match ops[|ops| - 1]
    case Block(n, changes) => set m | m in before && m.key !in Touched(changes)
    case Fork(b) => set m | m in before && m.block < b
    case Crash(n, lost) => before + set k | k in Touched(lost) :: Mark(n + 1, k)
    case _ => before
  }

  ghost predicate Unmarked(ops: seq<Op>, block: nat) {
    forall m | m in Marks(ops) :: m.block != block
  }

  /** No block crashes again while a mark of its number is left. */
  ghost predicate CleanCrashes(ops: seq<Op>) {
    forall i | 0 <= i < |ops| && ops[i].Crash? :: Unmarked(ops[..i], ops[i].n + 1)
  }

  /** Clean, and every mark is wiped out in the end. */
  ghost predicate Settles(ops: seq<Op>) {
    CleanCrashes(ops) && Marks(ops) == {}
  }

  /** A crash that is followed by its replay leaves no mark. */
  lemma ReplayWipes(ops: seq<Op>, n: nat, changes: BlockChanges)
    ensures Marks(ops + [Crash(n, changes), Block(n + 1, changes)]) <= Marks(ops)
  {
    var crashed := ops + [Crash(n, changes)];
    var replayed := crashed + [Block(n + 1, changes)];
    assert crashed[..|ops|] == ops && replayed[..|crashed|] == crashed;
    assert ops + [Crash(n, changes), Block(n + 1, changes)] == replayed;
  }

  /** So does a crash that is followed by a fork cleanup at its block or an earlier one. */
  lemma ForkWipes(ops: seq<Op>, n: nat, lost: BlockChanges, b: nat)
    requires b <= n + 1
    ensures Marks(ops + [Crash(n, lost), Fork(b)]) <= Marks(ops)
  {
    var crashed := ops + [Crash(n, lost)];
    var forked := crashed + [Fork(b)];
    assert crashed[..|ops|] == ops && forked[..|crashed|] == crashed;
    assert ops + [Crash(n, lost), Fork(b)] == forked;
  }

  /** A run without crashes has no marks. */
  lemma {:induction false} CrashFreeSettles(ops: seq<Op>)
    requires forall i | 0 <= i < |ops| :: !ops[i].Crash?
    ensures Settles(ops)
  {
    if ops == [] {
    } else {
      CrashFreeSettles(ops[..|ops| - 1]);
    }
  }

  /** Every open row whose updated number is not its start carries a mark. */
  ghost predicate OnlyMarked(rows: Rows, x: TableName, marks: set<Mark>) {
    forall v | v in rows && rows[v].range.Open() && rows[v].updated != rows[v].range.lower ::
      Mark(rows[v].updated, Key(x, rows[v].id)) in marks
  }

  lemma SavedOpenRow(rows: Rows, after: Rows, n: nat, changes: Changes, v: Vid)
    requires SavedAs(rows, after, n, changes) && v in after && after[v].range.Open()
    ensures || after[v].updated == after[v].range.lower
            || (v in rows && after[v] == rows[v] && after[v].id !in changes)
  {
    var vids :| Assigns(rows, changes, vids) && after == SaveRows(rows, n, changes, vids);
    if v in vids {
      assert after[v] == NewRow(n, changes, vids[v]);
    } else if rows[v].range.Open() {
      OpenIsLatest(rows, v);
      assert after[v] == CloseRows(rows, n, changes)[v];
    }
  }

  lemma BlockMarks(rows: Rows, after: Rows, n: nat, changes: BlockChanges, x: TableName, ops: seq<Op>)
    requires SavedAs(rows, after, n, ChangesOf(changes, x)) && OnlyMarked(rows, x, Marks(ops))
    ensures OnlyMarked(after, x, Marks(ops + [Block(n, changes)]))
  {
    hide SavedAs;
    assert (ops + [Block(n, changes)])[..|ops|] == ops;
    forall v | v in after && after[v].range.Open() && after[v].updated != after[v].range.lower
      ensures Mark(after[v].updated, Key(x, after[v].id)) in Marks(ops + [Block(n, changes)])
    {
      SavedOpenRow(rows, after, n, ChangesOf(changes, x), v);
      assert Key(x, after[v].id) !in Touched(changes);
    }
  }

  lemma ForkMarks(rows: Rows, b: nat, x: TableName, ops: seq<Op>)
    requires WellFormed(rows) && OnlyMarked(rows, x, Marks(ops))
    ensures OnlyMarked(ForkRows(rows, b), x, Marks(ops + [Fork(b)]))
  {
    assert (ops + [Fork(b)])[..|ops|] == ops;
    forall v | v in ForkRows(rows, b) && ForkRows(rows, b)[v].range.Open()
               && ForkRows(rows, b)[v].updated != ForkRows(rows, b)[v].range.lower
      ensures rows[v].updated < b && ForkRows(rows, b)[v] == rows[v]
    {
      assert RowOk(rows[v]) && !DeletedByFork(rows[v], b);
    }
  }

  lemma CrashMarks(rows: Rows, back: Rows, n: nat, lost: BlockChanges, x: TableName, ops: seq<Op>)
    requires RestoredUpToUpdated(rows, back, n, ChangesOf(lost, x)) && OnlyMarked(rows, x, Marks(ops))
    ensures OnlyMarked(back, x, Marks(ops + [Crash(n, lost)]))
  {
    assert (ops + [Crash(n, lost)])[..|ops|] == ops;
    forall v | v in back && back[v].range.Open() && back[v].updated != back[v].range.lower
      ensures Mark(back[v].updated, Key(x, back[v].id)) in Marks(ops + [Crash(n, lost)])
    {
      if back[v] != rows[v] {
        assert Key(x, back[v].id) in Touched(lost);
      }
    }
  }

  /** Without a mark of its block, a crash finds no stale row. */
  lemma UnmarkedIsNotStale(rows: Rows, n: nat, x: TableName, ops: seq<Op>)
    requires OnlyMarked(rows, x, Marks(ops)) && Below(rows, n + 1) && Unmarked(ops, n + 1)
    ensures !HasStale(rows, n)
  {
    forall v | v in rows
      ensures !Stale(rows[v], n)
    {
      assert Mark(n + 1, Key(x, rows[v].id)) !in Marks(ops);
    }
  }

  lemma LeftIsBelow(rows: Rows, back: Rows, n: nat, changes: Changes)
    requires RecoveredAs(rows, back, n, changes)
    ensures Below(rows, n + 1)
  {
    var left :| LeftByCrash(rows, left, n + 1, changes) && back == RecoverRows(left, n);
  }

  lemma StepMarks(s: State, op: Op, t: State, zeros: Zeros, ops: seq<Op>, x: TableName)
    requires Step(s, op, t, zeros) && Orderly(s, op, Surviving(ops)) && x in s.tables
    requires op.Crash? ==> Unmarked(ops, op.n + 1)
    requires WellFormed(s.tables[x]) && OnlyMarked(s.tables[x], x, Marks(ops))
    ensures x in t.tables && OnlyMarked(t.tables[x], x, Marks(ops + [op]))
  {
    hide WellFormed, OnlyMarked, SavedAs, ForkRows, RecoveredAs, RestoredUpToUpdated, DeletesLive;
    assert (ops + [op])[..|ops|] == ops;
    match op
    case Block(n, changes) =>
      BlockMarks(s.tables[x], t.tables[x], n, changes, x, ops);
    case Fork(b) =>
      ForkMarks(s.tables[x], b, x, ops);
    case Crash(n, lost) =>
      var rows, back := s.tables[x], t.tables[x];
      LeftIsBelow(rows, back, n, ChangesOf(lost, x));
      UnmarkedIsNotStale(rows, n, x, ops);
      LostIsLive(s, lost, x);
      RecoveredIsRestored(rows, back, n, ChangesOf(lost, x));
      CrashMarks(rows, back, n, lost, x, ops);
    case Load(k) =>
    case Purge(final) =>
  }

  lemma LostIsLive(s: State, changes: BlockChanges, x: TableName)
    requires LiveDeletes(s, changes) && x in s.tables
    ensures DeletesLive(s.tables[x], ChangesOf(changes, x))
  {
  }

  lemma {:induction false} RunMarks(states: seq<State>, ops: seq<Op>, zeros: Zeros, x: TableName)
    requires IsOrderlyRun(states, ops, zeros) && CleanCrashes(ops) && x in states[0].tables
    ensures x in states[|ops|].tables && OnlyMarked(states[|ops|].tables[x], x, Marks(ops))
    decreases |ops|
  {
    hide Step, Orderly, Unmarked, WellFormed;
    if ops == [] {
    } else {
      var m := |ops| - 1;
      OrderlyPrefix(states, ops, zeros, m);
      CleanPrefix(ops, m);
      RunMarks(states[..|ops|], ops[..m], zeros, x);
      RunWellFormed(states[..|ops|], ops[..m], zeros, x);
      assert ops == ops[..m] + [ops[m]];
      StepMarks(states[m], ops[m], states[m + 1], zeros, ops[..m], x);
    }
  }

  lemma CleanPrefix(ops: seq<Op>, m: nat)
    requires CleanCrashes(ops) && m <= |ops|
    ensures CleanCrashes(ops[..m])
  {
    hide Unmarked;
    forall i | 0 <= i < m && ops[i].Crash?
      ensures Unmarked(ops[..m][..i], ops[i].n + 1)
    {
      assert ops[..m][..i] == ops[..i];
    }
  }

  /** When no block crashes again while a mark of its number is left, no recovery
      ever finds a stale row: every theorem about legal runs holds. */
  lemma CleanRunIsRun(states: seq<State>, ops: seq<Op>, zeros: Zeros)
    requires IsOrderlyRun(states, ops, zeros) && CleanCrashes(ops)
    ensures IsRun(states, ops, zeros)
  {
    hide Step, Orderly, HasStale, Unmarked;
    forall i | 0 <= i < |ops|
      ensures Legal(states[i], ops[i], Surviving(ops[..i]))
    {
      if ops[i].Crash? {
        forall x | x in states[i].tables
          ensures !HasStale(states[i].tables[x], ops[i].n)
        {
          CrashFindsNoStale(states, ops, zeros, i, x);
        }
      }
    }
  }

  lemma CrashFindsNoStale(states: seq<State>, ops: seq<Op>, zeros: Zeros, i: nat, x: TableName)
    requires IsOrderlyRun(states, ops, zeros) && CleanCrashes(ops) && i < |ops| && ops[i].Crash?
             && x in states[i].tables
    ensures !HasStale(states[i].tables[x], ops[i].n)
  {
    OrderlyPrefix(states, ops, zeros, i);
    CleanPrefix(ops, i);
    SameTables(states[..i + 1], ops[..i], zeros);
    RunMarks(states[..i + 1], ops[..i], zeros, x);
    assert Step(states[i], ops[i], states[i + 1], zeros) && RecoveredAs(
      states[i].tables[x], states[i + 1].tables[x], ops[i].n, ChangesOf(ops[i].lost, x));
    LeftIsBelow(states[i].tables[x], states[i + 1].tables[x], ops[i].n, ChangesOf(ops[i].lost, x));
    UnmarkedIsNotStale(states[i].tables[x], ops[i].n, x, ops[..i]);
  }

  lemma {:induction false} SameTables(states: seq<State>, ops: seq<Op>, zeros: Zeros)
    requires IsTrace(states, ops, zeros)
    ensures states[|ops|].tables.Keys == states[0].tables.Keys
    decreases |ops|
  {
    if ops == [] {
    } else {
      var m := |ops| - 1;
      TracePrefix(states, ops, zeros, m);
      SameTables(states[..|ops|], ops[..m], zeros);
      assert Step(states[m], ops[m], states[m + 1], zeros);
    }
  }

  // ---------------------------------------------------------------------
  // Tables
  // ---------------------------------------------------------------------

  ghost predicate TableTracks(s: State, c: seq<StoreSave>, x: TableName)
    requires x in s.tables
  {
    Increasing(TableChain(c, x)) && Tracks(s.tables[x], TableChain(c, x))
  }

  lemma StepTracks(s: State, op: Op, t: State, zeros: Zeros, ops: seq<Op>, x: TableName)
    requires Step(s, op, t, zeros) && Legal(s, op, Surviving(ops))
    requires x in s.tables && TableTracks(s, Surviving(ops), x)
    ensures x in t.tables && TableTracks(t, Surviving(ops + [op]), x)
  {
    hide Tracks, Increasing, WellFormed;
    var c := Surviving(ops);
    var chain := TableChain(c, x);
    assert (ops + [op])[..|ops|] == ops;
    match op
    case Block(n, changes) =>
      BlockTracks(s.tables[x], t.tables[x], chain, n, ChangesOf(changes, x));
      assert TableChain(c + [StoreSave(n, changes)], x) == chain + [Save(n, ChangesOf(changes, x))];
    case Fork(b) =>
      CutIsBefore(c, b, x);
      ForkTracks(s.tables[x], chain, b);
      BeforeIsPrefix(chain, b);
    case Crash(n, lost) =>
      assert RecoveredAs(s.tables[x], t.tables[x], n, ChangesOf(lost, x));
      CrashTracks(s.tables[x], t.tables[x], chain, n, ChangesOf(lost, x));
    case Load(k) =>
    case Purge(final) =>
  }

  lemma BlockTracks(rows: Rows, after: Rows, chain: Chain, n: nat, changes: Changes)
    requires Increasing(chain) && EndsBelow(chain, n) && 0 < n && Tracks(rows, chain)
    requires DeletesLive(rows, changes) && SavedAs(rows, after, n, changes)
    ensures Increasing(chain + [Save(n, changes)]) && Tracks(after, chain + [Save(n, changes)])
  {
    var vids :| Assigns(rows, changes, vids) && after == SaveRows(rows, n, changes, vids);
    SaveTracks(rows, chain, n, changes, vids);
  }

  lemma RecoveredIsRestored(rows: Rows, back: Rows, n: nat, changes: Changes)
    requires RecoveredAs(rows, back, n, changes) && DeletesLive(rows, changes) && !HasStale(rows, n)
    ensures WellFormed(rows) && Below(rows, n + 1) && RestoredUpToUpdated(rows, back, n, changes)
  {
    var left :| LeftByCrash(rows, left, n + 1, changes) && back == RecoverRows(left, n);
    var vids :| Assigns(rows, changes, vids) && PartlySaved(rows, left, n + 1, changes, vids);
    RecoverRestores(rows, left, n, changes, vids);
  }

  lemma CrashTracks(rows: Rows, back: Rows, chain: Chain, n: nat, changes: Changes)
    requires Increasing(chain) && Tracks(rows, chain) && !HasStale(rows, n)
    requires DeletesLive(rows, changes) && RecoveredAs(rows, back, n, changes)
    ensures Tracks(back, chain)
  {
    RecoveredIsRestored(rows, back, n, changes);
    RestoredTracks(rows, back, chain, n, changes);
  }

  lemma RestoredTracks(rows: Rows, back: Rows, chain: Chain, n: nat, changes: Changes)
    requires Tracks(rows, chain) && Below(rows, n + 1)
    requires RestoredUpToUpdated(rows, back, n, changes)
    ensures Tracks(back, chain)
  {
    assert forall v | v in rows :: Settle(back[v]) == Settle(rows[v]) && RowOk(back[v]);
    assert Settled(back) == Settled(rows);
  }

  /** Crash recovery: after a crash anywhere in block n + 1, one recovery and a
      replay of the block, each table is one that the block alone could have given,
      updated numbers included. */
  lemma CrashThenReplay(s: State, t: State, u: State, n: nat, changes: BlockChanges, zeros: Zeros, x: TableName)
    requires CrashStep(s, t, n, changes) && BlockStep(t, u, n + 1, changes, zeros)
    requires x in s.tables && DeletesLive(s.tables[x], ChangesOf(changes, x)) && !HasStale(s.tables[x], n)
    ensures x in u.tables && SavedAs(s.tables[x], u.tables[x], n + 1, ChangesOf(changes, x))
  {
    var ch := ChangesOf(changes, x);
    var rows, back, after := s.tables[x], t.tables[x], u.tables[x];
    assert RecoveredAs(rows, back, n, ch);
    RecoveredIsRestored(rows, back, n, ch);
    assert SavedAs(back, after, n + 1, ch);
    var vids :| Assigns(back, ch, vids) && after == SaveRows(back, n + 1, ch, vids);
    ReplayIsExact(rows, back, n, ch, vids);
  }

  /** After any run every table holds the versions of the surviving chain. */
  lemma {:induction false} RunTracks(states: seq<State>, ops: seq<Op>, zeros: Zeros, x: TableName)
    requires IsRun(states, ops, zeros) && x in states[0].tables
    ensures x in states[|ops|].tables && TableTracks(states[|ops|], Surviving(ops), x)
    decreases |ops|
  {
    if ops == [] {
      assert Settled(map[]) == map[];
    } else {
      var m := |ops| - 1;
      RunPrefix(states, ops, zeros, m);
      RunTracks(states[..|ops|], ops[..m], zeros, x);
      assert ops == ops[..m] + [ops[m]];
      StepTracks(states[m], ops[m], states[m + 1], zeros, ops[..m], x);
    }
  }

  /** When every mark is wiped out in the end, the updated numbers are right as well. */
  lemma RunExact(states: seq<State>, ops: seq<Op>, zeros: Zeros, x: TableName)
    requires IsOrderlyRun(states, ops, zeros) && Settles(ops) && x in states[0].tables
    ensures x in states[|ops|].tables && Exact(states[|ops|].tables[x])
  {
    RunMarks(states, ops, zeros, x);
  }

  lemma SettlesIsClean(ops: seq<Op>)
    requires Settles(ops)
    ensures CleanCrashes(ops)
  {
  }

  /** Each table then holds exactly the versions of the surviving chain. */
  lemma RunRepresents(states: seq<State>, ops: seq<Op>, zeros: Zeros, x: TableName)
    requires IsOrderlyRun(states, ops, zeros) && Settles(ops) && x in states[0].tables
    ensures x in states[|ops|].tables && Represents(states[|ops|].tables[x], TableChain(Surviving(ops), x))
  {
    hide Step, Orderly, Legal, Settles, Tracks, Represents, Exact;
    SettlesIsClean(ops);
    CleanRunIsRun(states, ops, zeros);
    RunTracks(states, ops, zeros, x);
    RunExact(states, ops, zeros, x);
    ExactTracksRepresents(states[|ops|].tables[x], TableChain(Surviving(ops), x));
  }

  /** The canonical chain decides: two runs that end on the same surviving chain
      hold the same tables up to vids, crashes that were replayed or forked away included. */
  lemma CanonicalChain(
    states: seq<State>, ops: seq<Op>, states': seq<State>, ops': seq<Op>, zeros: Zeros, x: TableName)
    requires IsOrderlyRun(states, ops, zeros) && Settles(ops) && x in states[0].tables
    requires IsOrderlyRun(states', ops', zeros) && Settles(ops') && x in states'[0].tables
    requires Surviving(ops) == Surviving(ops')
    ensures x in states[|ops|].tables && x in states'[|ops'|].tables
    ensures EqualUpToVids(states[|ops|].tables[x], states'[|ops'|].tables[x])
  {
    hide Step, Orderly, Settles, Represents, EqualUpToVids;
    RunRepresents(states, ops, zeros, x);
    RunRepresents(states', ops', zeros, x);
    ChainDeterminesTable(states[|ops|].tables[x], states'[|ops'|].tables[x], TableChain(Surviving(ops), x));
  }

  /** With crashes the same holds up to the updated numbers of open rows. */
  lemma CanonicalChainSettled(
    states: seq<State>, ops: seq<Op>, states': seq<State>, ops': seq<Op>, zeros: Zeros, x: TableName)
    requires IsRun(states, ops, zeros) && x in states[0].tables
    requires IsRun(states', ops', zeros) && x in states'[0].tables
    requires Surviving(ops) == Surviving(ops')
    ensures x in states[|ops|].tables && x in states'[|ops'|].tables
    ensures EqualUpToVids(Settled(states[|ops|].tables[x]), Settled(states'[|ops'|].tables[x]))
  {
    RunTracks(states, ops, zeros, x);
    RunTracks(states', ops', zeros, x);
    ChainDeterminesTable(Settled(states[|ops|].tables[x]), Settled(states'[|ops'|].tables[x]),
                         TableChain(Surviving(ops), x));
  }

  /** Time travel over runs: whatever forks and crashes happened, the rows that
      contain block m are the live state of the surviving chain at m. */
  lemma RunTimeTravel(states: seq<State>, ops: seq<Op>, zeros: Zeros, x: TableName, m: nat, id: Id, f: Fields)
    requires IsRun(states, ops, zeros) && x in states[0].tables
    ensures x in states[|ops|].tables
    ensures var live := LiveAfter(Before(TableChain(Surviving(ops), x), m + 1));
            AsOf(states[|ops|].tables[x], m, id, f) <==> id in live && live[id] == f
  {
    RunTracks(states, ops, zeros, x);
    TimeTravel(states[|ops|].tables[x], TableChain(Surviving(ops), x), m, id, f);
  }

  // ---------------------------------------------------------------------
  // Cache
  // ---------------------------------------------------------------------

  ghost predicate NoDeletes(op: Op) {
    op.Block? ==> forall k :: !Deletes(op.changes, k)
  }

  lemma StepCoherent(s: State, op: Op, t: State, zeros: Zeros)
    requires Step(s, op, t, zeros) && NoDeletes(op) && Coherent(s, zeros)
    ensures Coherent(t, zeros)
  {
    match op
    case Block(n, changes) =>
      BlockKeepsCoherentIff(s, t, n, changes, zeros);
    case Fork(b) =>
      ForkKeepsCoherent(s, t, b, zeros);
    case Crash(n, lost) =>
    case Load(k) =>
      assert forall j | j in s.cache :: CoherentAt(s, j, zeros);
    case Purge(final) =>
      assert forall j | j in s.cache :: CoherentAt(s, j, zeros);
  }

  /** Cache coherence over every sequence of steps without deletes: each cached
      entity is the open row of its id, or blank when there is none. */
  lemma {:induction false} RunCoherent(states: seq<State>, ops: seq<Op>, zeros: Zeros)
    requires IsTrace(states, ops, zeros)
    requires forall i | 0 <= i < |ops| :: NoDeletes(ops[i])
    ensures Coherent(states[|ops|], zeros)
    decreases |ops|
  {
    hide Step, NoDeletes;
    if ops == [] {
    } else {
      var m := |ops| - 1;
      TracePrefix(states, ops, zeros, m);
      RunCoherent(states[..|ops|], ops[..m], zeros);
      StepCoherent(states[m], ops[m], states[m + 1], zeros);
    }
  }
}
