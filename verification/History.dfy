/**
 What the rows of a table mean: a declarative reading of a chain of block
 saves, and the theorems that the SQL statements keep to it.
 */
module History {
  import opened Prelude
  import opened VersionedRows

  datatype Save = Save(block: nat, changes: Changes)

  type Chain = seq<Save>

  ghost predicate Increasing(c: Chain) {
    && (forall i | 0 <= i < |c| :: 0 < c[i].block)
    && (forall i, j | 0 <= i < j < |c| :: c[i].block < c[j].block)
  }

  /** The part of the chain before block b. */
  ghost function Before(c: Chain, b: nat): Chain {
    if c == [] then []
    else if c[|c| - 1].block < b then c
    else Before(c[..|c| - 1], b)
  }

  /** The block of the first save, from position `from` on, that touches id. */
  ghost function NextTouch(c: Chain, from: nat, id: Id): Option<nat>
    decreases |c| - from
  {
    if from >= |c| then None
    else if id in c[from].changes then Some(c[from].block)
    else NextTouch(c, from + 1, id)
  }

  ghost predicate Writes(c: Chain, k: nat, id: Id) {
    k < |c| && Live(c[k].changes, id)
  }

  /** The version that save k creates: live until the next save that touches id. */
  ghost function VersionAt(c: Chain, k: nat, id: Id): Row
    requires Writes(c, k, id)
  {
    var upper := NextTouch(c, k + 1, id);
    Row(id,
        Span(c[k].block, upper),
        if upper.Some? then upper.value else c[k].block,
        c[k].changes[id].value)
  }

  ghost predicate IsVersion(c: Chain, r: Row) {
    exists k: nat :: Writes(c, k, r.id) && r == VersionAt(c, k, r.id)
  }

  ghost predicate HasRow(rows: Rows, r: Row) {
    exists v :: v in rows && rows[v] == r
  }

  /** The table holds exactly the versions of the chain, each once, under any vids. */
  ghost predicate Represents(rows: Rows, c: Chain) {
    && (forall v | v in rows :: IsVersion(c, rows[v]))
    && (forall k: nat, id | Writes(c, k, id) :: HasRow(rows, VersionAt(c, k, id)))
    && (forall v, w | v in rows && w in rows && rows[v] == rows[w] :: v == w)
  }

  // ---------------------------------------------------------------------
  // NextTouch
  // ---------------------------------------------------------------------

  lemma {:induction false} NextTouchIsLater(c: Chain, from: nat, id: Id)
    requires Increasing(c)
    ensures var t := NextTouch(c, from, id);
            t.Some? ==> exists j :: from <= j < |c| && id in c[j].changes && c[j].block == t.value
    ensures var t := NextTouch(c, from, id);
            forall j | from <= j < |c| && id in c[j].changes :: t.Some? && t.value <= c[j].block
    decreases |c| - from
  {
    if from >= |c| || id in c[from].changes {
    } else {
      NextTouchIsLater(c, from + 1, id);
    }
  }

  lemma {:induction false} NextTouchExtend(c: Chain, s: Save, from: nat, id: Id)
    requires from <= |c|
    ensures NextTouch(c + [s], from, id) ==
            if NextTouch(c, from, id).Some? then NextTouch(c, from, id)
            else if id in s.changes then Some(s.block) else None
    decreases |c| - from
  {
    if from < |c| {
      assert (c + [s])[from] == c[from];
      NextTouchExtend(c, s, from + 1, id);
    } else {
      assert (c + [s])[from] == s;
      assert NextTouch(c + [s], from + 1, id) == None;
    }
  }

  // ---------------------------------------------------------------------
  // Saving a block
  // ---------------------------------------------------------------------

  lemma VersionExtend(c: Chain, s: Save, k: nat, id: Id)
    requires Increasing(c) && Writes(c, k, id)
    requires forall i | 0 <= i < |c| :: c[i].block < s.block
    ensures Writes(c + [s], k, id)
    ensures VersionAt(c + [s], k, id) ==
            if VersionAt(c, k, id).range.Open() && id in s.changes
            then CloseRow(VersionAt(c, k, id), s.block)
            else VersionAt(c, k, id)
  {
    assert (c + [s])[k] == c[k];
    NextTouchExtend(c, s, k + 1, id);
  }

  lemma VersionInWindow(c: Chain, k: nat, id: Id)
    requires Increasing(c) && Writes(c, k, id)
    ensures RowOk(VersionAt(c, k, id))
  {
    NextTouchIsLater(c, k + 1, id);
  }

  lemma VersionsDisjoint(c: Chain, j: nat, k: nat, id: Id)
    requires Increasing(c) && Writes(c, j, id) && Writes(c, k, id) && j < k
    ensures VersionAt(c, j, id).range.upper.Some?
    ensures VersionAt(c, j, id).range.upper.value <= c[k].block
    ensures Disjoint(VersionAt(c, j, id).range, VersionAt(c, k, id).range)
  {
    NextTouchIsLater(c, j + 1, id);
  }

  /** The invariant: ranges are non-empty, disjoint per id, at most one open. */
  lemma RepresentsWellFormed(rows: Rows, c: Chain)
    requires Increasing(c) && Represents(rows, c)
    ensures WellFormed(rows)
  {
    forall v | v in rows
      ensures RowOk(rows[v])
    {
      assert IsVersion(c, rows[v]);
      var k: nat :| Writes(c, k, rows[v].id) && rows[v] == VersionAt(c, k, rows[v].id);
      VersionInWindow(c, k, rows[v].id);
    }
    forall v, w | v in rows && w in rows && v != w && rows[v].id == rows[w].id
      ensures Disjoint(rows[v].range, rows[w].range)
    {
      var id := rows[v].id;
      assert IsVersion(c, rows[v]) && IsVersion(c, rows[w]);
      var j: nat :| Writes(c, j, id) && rows[v] == VersionAt(c, j, id);
      var k: nat :| Writes(c, k, id) && rows[w] == VersionAt(c, k, id);
      if j < k {
        VersionsDisjoint(c, j, k, id);
      } else if k < j {
        VersionsDisjoint(c, k, j, id);
      }
    }
  }

  /** A row as it would read had the last crash recovery not touched its updated number. */
  function Settle(r: Row): Row {
    if r.range.Open() then r.(updated := r.range.lower) else r
  }

  ghost function Settled(rows: Rows): Rows {
    map v | v in rows :: Settle(rows[v])
  }

  /** No open row carries the updated number of a block that was undone. */
  ghost predicate Exact(rows: Rows) {
    forall v | v in rows :: Settle(rows[v]) == rows[v]
  }

  /** The table holds the versions of the chain, open rows up to their updated number. */
  ghost predicate Tracks(rows: Rows, c: Chain) {
    && (forall v | v in rows :: RowOk(rows[v]))
    && Represents(Settled(rows), c)
  }

  lemma ExactTracksRepresents(rows: Rows, c: Chain)
    requires Exact(rows) && Increasing(c)
    ensures Tracks(rows, c) <==> Represents(rows, c)
  {
    assert Settled(rows) == rows;
    if Represents(rows, c) {
      RepresentsWellFormed(rows, c);
    }
  }

  ghost predicate EndsBelow(c: Chain, n: nat) {
    forall i | 0 <= i < |c| :: c[i].block < n
  }

  lemma VersionBelow(c: Chain, r: Row, n: nat)
    requires Increasing(c) && EndsBelow(c, n) && IsVersion(c, r)
    ensures r.range.Span? && r.range.lower < n && (r.range.upper.Some? ==> r.range.upper.value < n)
  {
    var k: nat :| Writes(c, k, r.id) && r == VersionAt(c, k, r.id);
    NextTouchIsLater(c, k + 1, r.id);
  }

  lemma TracksBelow(rows: Rows, c: Chain, n: nat)
    requires Increasing(c) && EndsBelow(c, n) && Tracks(rows, c)
    ensures Below(rows, n)
  {
    forall v | v in rows
      ensures rows[v].range.lower < n && (rows[v].range.upper.Some? ==> rows[v].range.upper.value < n)
    {
      assert IsVersion(c, Settled(rows)[v]);
      VersionBelow(c, Settled(rows)[v], n);
    }
  }

  /** A delete names an id that is live, or one the table has never held. */
  ghost predicate DeletesLive(rows: Rows, changes: Changes) {
    forall v | v in rows && rows[v].id in changes && changes[rows[v].id].None? && IsLatest(rows, v) ::
      rows[v].range.Open()
  }

  lemma OpenIsLatest(rows: Rows, v: Vid)
    requires WellFormed(rows) && v in rows && rows[v].range.Open()
    ensures IsLatest(rows, v)
  {
    forall w | w in rows && rows[w].id == rows[v].id
      ensures rows[w].range.AtMost(rows[v].range)
    {
      if w != v { assert Disjoint(rows[w].range, rows[v].range); }
    }
  }

  /** With live deletes, a save closes exactly the open rows of the ids it touches. */
  lemma ClosesOpenRows(rows: Rows, changes: Changes, v: Vid)
    requires WellFormed(rows) && DeletesLive(rows, changes) && v in rows
    ensures ClosedBySave(rows, changes, v) <==> rows[v].range.Open() && rows[v].id in changes
  {
    if rows[v].range.Open() {
      OpenIsLatest(rows, v);
    }
  }

  function AdvanceRow(r: Row, s: Save): Row
    requires r.range.Span? && r.range.lower < s.block
  {
    if r.range.Open() && r.id in s.changes then CloseRow(r, s.block) else r
  }

  lemma AdvanceVersion(c: Chain, s: Save, r: Row)
    requires Increasing(c) && EndsBelow(c, s.block) && IsVersion(c, r)
    ensures r.range.Span? && r.range.lower < s.block
    ensures IsVersion(c + [s], AdvanceRow(r, s))
  {
    VersionBelow(c, r, s.block);
    var k: nat :| Writes(c, k, r.id) && r == VersionAt(c, k, r.id);
    VersionExtend(c, s, k, r.id);
    assert Writes(c + [s], k, r.id);
  }

  lemma NewVersion(c: Chain, s: Save, id: Id)
    requires Live(s.changes, id)
    ensures Writes(c + [s], |c|, id)
    ensures VersionAt(c + [s], |c|, id) == NewRow(s.block, s.changes, id)
    ensures IsVersion(c + [s], NewRow(s.block, s.changes, id))
  {
    assert (c + [s])[|c|] == s;
    assert NextTouch(c + [s], |c| + 1, id) == None;
    assert Writes(c + [s], |c|, id);
  }

  /** How a save acts on one row it finds, and on the rows it inserts. */
  lemma SavedRow(rows: Rows, n: nat, changes: Changes, vids: map<Vid, Id>, v: Vid)
    requires WellFormed(rows) && Below(rows, n) && 0 < n
    requires DeletesLive(rows, changes) && Assigns(rows, changes, vids)
    requires v in SaveRows(rows, n, changes, vids)
    ensures v in rows || v in vids
    ensures v in rows ==> rows[v].range.Span? && rows[v].range.lower < n
    ensures v in rows ==>
              && SaveRows(rows, n, changes, vids)[v] == AdvanceRow(rows[v], Save(n, changes))
              && Settle(SaveRows(rows, n, changes, vids)[v]) == AdvanceRow(Settle(rows[v]), Save(n, changes))
    ensures v in vids ==> SaveRows(rows, n, changes, vids)[v] == NewRow(n, changes, vids[v])
    ensures RowOk(SaveRows(rows, n, changes, vids)[v])
  {
    if v in rows {
      ClosesOpenRows(rows, changes, v);
      assert v !in vids;
      assert SaveRows(rows, n, changes, vids)[v] == CloseRows(rows, n, changes)[v];
    }
  }

  lemma SaveHasVersion(rows: Rows, c: Chain, n: nat, changes: Changes, vids: map<Vid, Id>, k: nat, id: Id)
    requires Increasing(c) && EndsBelow(c, n) && 0 < n && Tracks(rows, c)
    requires WellFormed(rows) && Below(rows, n)
    requires DeletesLive(rows, changes) && Assigns(rows, changes, vids)
    requires Writes(c + [Save(n, changes)], k, id)
    ensures HasRow(Settled(SaveRows(rows, n, changes, vids)), VersionAt(c + [Save(n, changes)], k, id))
  {
    var s := Save(n, changes);
    var saved := SaveRows(rows, n, changes, vids);
    if k < |c| {
      assert Writes(c, k, id);
      VersionExtend(c, s, k, id);
      assert HasRow(Settled(rows), VersionAt(c, k, id));
      var v :| v in rows && Settled(rows)[v] == VersionAt(c, k, id);
      SavedRow(rows, n, changes, vids, v);
      assert Settled(saved)[v] == VersionAt(c + [s], k, id);
    } else {
      assert Live(changes, id);
      NewVersion(c, s, id);
      var v :| v in vids && vids[v] == id;
      SavedRow(rows, n, changes, vids, v);
      assert Settled(saved)[v] == VersionAt(c + [s], k, id);
    }
  }

  lemma SaveDistinct(rows: Rows, c: Chain, n: nat, changes: Changes, vids: map<Vid, Id>, v: Vid, w: Vid)
    requires Increasing(c) && EndsBelow(c, n) && 0 < n && Tracks(rows, c)
    requires WellFormed(rows) && Below(rows, n)
    requires DeletesLive(rows, changes) && Assigns(rows, changes, vids)
    requires v in SaveRows(rows, n, changes, vids) && w in SaveRows(rows, n, changes, vids)
    requires Settle(SaveRows(rows, n, changes, vids)[v]) == Settle(SaveRows(rows, n, changes, vids)[w])
    ensures v == w
  {
    hide SaveRows, VersionAt, ClosedBySave, IsVersion, HasRow;
    SavedRow(rows, n, changes, vids, v);
    SavedRow(rows, n, changes, vids, w);
    if v in rows && w in rows {
      assert Settled(rows)[v].range.lower == Settled(rows)[w].range.lower;
      SameVersion(Settled(rows), c, v, w);
    }
  }

  /** Saving block n on top of a chain gives the table of the longer chain. */
  lemma SaveTracks(rows: Rows, c: Chain, n: nat, changes: Changes, vids: map<Vid, Id>)
    requires Increasing(c) && EndsBelow(c, n) && 0 < n && Tracks(rows, c)
    requires WellFormed(rows) && Below(rows, n)
    requires DeletesLive(rows, changes) && Assigns(rows, changes, vids)
    ensures Increasing(c + [Save(n, changes)])
    ensures Tracks(SaveRows(rows, n, changes, vids), c + [Save(n, changes)])
  {
    hide IsVersion, AdvanceRow, SaveRows, Writes, HasRow;
    var s := Save(n, changes);
    var saved := SaveRows(rows, n, changes, vids);
    forall v | v in saved
      ensures IsVersion(c + [s], Settled(saved)[v]) && RowOk(saved[v])
    {
      SavedRow(rows, n, changes, vids, v);
      if v in rows {
        assert IsVersion(c, Settled(rows)[v]);
        AdvanceVersion(c, s, Settle(rows[v]));
      } else {
        NewVersion(c, s, vids[v]);
      }
    }
    forall k: nat, id | Writes(c + [s], k, id)
      ensures HasRow(Settled(saved), VersionAt(c + [s], k, id))
    {
      SaveHasVersion(rows, c, n, changes, vids, k, id);
    }
    forall v, w | v in saved && w in saved && Settled(saved)[v] == Settled(saved)[w]
      ensures v == w
    {
      SaveDistinct(rows, c, n, changes, vids, v, w);
    }
  }

  lemma OneOpenRow(rows: Rows, v: Vid, w: Vid)
    requires WellFormed(rows) && v in rows && w in rows && rows[v].id == rows[w].id
    requires rows[v].range.Open() && rows[w].range.Open()
    ensures v == w
  {
    var apart := Disjoint(rows[v].range, rows[w].range);
  }

  lemma OneLatestRow(rows: Rows, v: Vid, w: Vid)
    requires WellFormed(rows) && v in rows && w in rows && rows[v].id == rows[w].id
    requires IsLatest(rows, v) && IsLatest(rows, w)
    ensures v == w
  {
    assert v == w || Disjoint(rows[v].range, rows[w].range);
    assert rows[v].range.AtMost(rows[w].range) && rows[w].range.AtMost(rows[v].range);
  }

  /** The row a save closes for id, if any, is unique. */
  lemma OneClosedRow(rows: Rows, changes: Changes, v: Vid, w: Vid)
    requires WellFormed(rows) && v in rows && w in rows && rows[v].id == rows[w].id
    requires ClosedBySave(rows, changes, v) && ClosedBySave(rows, changes, w)
    ensures v == w
  {
    if changes[rows[v].id].Some? { OneOpenRow(rows, v, w); } else { OneLatestRow(rows, v, w); }
  }

  lemma ClosedRowsWellFormed(rows: Rows, n: nat, changes: Changes)
    requires WellFormed(rows) && Below(rows, n) && 0 < n
    ensures WellFormed(CloseRows(rows, n, changes))
    ensures forall v | v in rows && Live(changes, rows[v].id) ::
              var r := CloseRows(rows, n, changes)[v].range; r.upper.Some? && r.upper.value <= n
  {
    var closed := CloseRows(rows, n, changes);
    forall v, w | v in closed && w in closed && v != w && closed[v].id == closed[w].id
      ensures Disjoint(closed[v].range, closed[w].range)
    {
      var apart := Disjoint(rows[v].range, rows[w].range);
      if ClosedBySave(rows, changes, v) && ClosedBySave(rows, changes, w) {
        OneClosedRow(rows, changes, v, w);
      } else if ClosedBySave(rows, changes, v) {
        ClosedIsLast(rows, changes, v, w);
      } else if ClosedBySave(rows, changes, w) {
        ClosedIsLast(rows, changes, w, v);
      }
    }
  }

  /** The other rows of the id end before the closed one starts. */
  lemma ClosedIsLast(rows: Rows, changes: Changes, v: Vid, w: Vid)
    requires WellFormed(rows) && v in rows && w in rows && v != w && rows[v].id == rows[w].id
    requires ClosedBySave(rows, changes, v)
    ensures rows[v].range.Span? && rows[w].range.Span?
    ensures rows[w].range.upper.Some? && rows[w].range.upper.value <= rows[v].range.lower
  {
    var apart := Disjoint(rows[v].range, rows[w].range);
    if changes[rows[v].id].None? {
      assert rows[w].range.AtMost(rows[v].range);
    }
  }

  /** Every save keeps the invariant, whatever it deletes. */
  lemma SaveWellFormed(rows: Rows, n: nat, changes: Changes, vids: map<Vid, Id>)
    requires WellFormed(rows) && Below(rows, n) && 0 < n && Assigns(rows, changes, vids)
    ensures WellFormed(SaveRows(rows, n, changes, vids))
  {
    ClosedRowsWellFormed(rows, n, changes);
    var closed, new', after := CloseRows(rows, n, changes), NewRows(n, changes, vids), SaveRows(rows, n, changes, vids);
    forall v, w | v in after && w in after && v != w && after[v].id == after[w].id
      ensures Disjoint(after[v].range, after[w].range)
    {
      if v in closed && w in closed {
        assert Disjoint(closed[v].range, closed[w].range);
      }
    }
  }

  // ---------------------------------------------------------------------
  // Undoing blocks
  // ---------------------------------------------------------------------

  lemma {:induction false} BeforeIsPrefix(c: Chain, b: nat)
    requires Increasing(c)
    ensures Before(c, b) <= c
    ensures Increasing(Before(c, b)) && EndsBelow(Before(c, b), b)
    ensures forall i | |Before(c, b)| <= i < |c| :: b <= c[i].block
  {
    if c == [] || c[|c| - 1].block < b {
    } else {
      BeforeIsPrefix(c[..|c| - 1], b);
    }
  }

  /** A version as seen before block b: still open if it was closed at b or later. */
  function Rewind(r: Row, b: nat): Row {
    if r.range.Span? && r.range.upper.Some? && r.range.upper.value >= b
    then r.(range := Span(r.range.lower, None), updated := r.range.lower)
    else r
  }

  lemma {:induction false} NextTouchPrefix(c: Chain, p: Chain, from: nat, id: Id, b: nat)
    requires Increasing(c) && p <= c && EndsBelow(p, b)
    requires forall i | |p| <= i < |c| :: b <= c[i].block
    ensures NextTouch(p, from, id) ==
            if NextTouch(c, from, id).Some? && NextTouch(c, from, id).value < b
            then NextTouch(c, from, id) else None
    decreases |c| - from
  {
    if from >= |c| {
    } else {
      NextTouchPrefix(c, p, from + 1, id, b);
      NextTouchIsLater(c, from, id);
    }
  }

  lemma VersionPrefix(c: Chain, p: Chain, k: nat, id: Id, b: nat)
    requires Increasing(c) && p == Before(c, b)
    requires Writes(c, k, id) && c[k].block < b
    ensures Writes(p, k, id)
    ensures VersionAt(p, k, id) == Rewind(VersionAt(c, k, id), b)
  {
    BeforeIsPrefix(c, b);
    NextTouchPrefix(c, p, k + 1, id, b);
  }

  /** The table with every row created at b or later gone, every other rewound. */
  ghost function RewindRows(rows: Rows, b: nat): Rows {
    map v | v in rows && rows[v].range.Span? && rows[v].range.lower < b :: Rewind(rows[v], b)
  }

  lemma RewindVersion(c: Chain, r: Row, b: nat)
    requires Increasing(c) && IsVersion(c, r)
    requires r.range.Span? && r.range.lower < b
    ensures IsVersion(Before(c, b), Rewind(r, b))
  {
    var k: nat :| Writes(c, k, r.id) && r == VersionAt(c, k, r.id);
    VersionPrefix(c, Before(c, b), k, r.id, b);
  }

  lemma RewindHasVersion(rows: Rows, c: Chain, b: nat, k: nat, id: Id)
    requires Increasing(c) && Represents(rows, c)
    requires Writes(Before(c, b), k, id)
    ensures HasRow(RewindRows(rows, b), VersionAt(Before(c, b), k, id))
  {
    BeforeIsPrefix(c, b);
    assert Writes(c, k, id);
    assert HasRow(rows, VersionAt(c, k, id));
    var v :| v in rows && rows[v] == VersionAt(c, k, id);
    VersionPrefix(c, Before(c, b), k, id, b);
    assert RewindRows(rows, b)[v] == VersionAt(Before(c, b), k, id);
  }

  lemma RewindIsVersion(rows: Rows, c: Chain, b: nat, v: Vid)
    requires Increasing(c) && Represents(rows, c) && v in RewindRows(rows, b)
    ensures IsVersion(Before(c, b), RewindRows(rows, b)[v])
  {
    assert IsVersion(c, rows[v]);
    RewindVersion(c, rows[v], b);
  }

  lemma RewindDistinct(rows: Rows, c: Chain, b: nat, v: Vid, w: Vid)
    requires Increasing(c) && Represents(rows, c)
    requires v in RewindRows(rows, b) && w in RewindRows(rows, b) && RewindRows(rows, b)[v] == RewindRows(rows, b)[w]
    ensures v == w
  {
    SameVersion(rows, c, v, w);
  }

  lemma RewindRepresents(rows: Rows, c: Chain, b: nat)
    requires Increasing(c) && Represents(rows, c)
    ensures Represents(RewindRows(rows, b), Before(c, b))
  {
    hide IsVersion, Writes, RewindRows;
    var back := RewindRows(rows, b);
    forall v | v in back
      ensures IsVersion(Before(c, b), back[v])
    {
      RewindIsVersion(rows, c, b, v);
    }
    forall k: nat, id | Writes(Before(c, b), k, id)
      ensures HasRow(back, VersionAt(Before(c, b), k, id))
    {
      RewindHasVersion(rows, c, b, k, id);
    }
    forall v, w | v in back && w in back && back[v] == back[w]
      ensures v == w
    {
      RewindDistinct(rows, c, b, v, w);
    }
  }

  /** A version is determined by its id and the block that created it. */
  lemma SameVersion(rows: Rows, c: Chain, v: Vid, w: Vid)
    requires Increasing(c) && Represents(rows, c) && v in rows && w in rows
    requires rows[v].id == rows[w].id && rows[v].range.Span? && rows[w].range.Span?
    requires rows[v].range.lower == rows[w].range.lower
    ensures v == w
  {
    var id := rows[v].id;
    assert IsVersion(c, rows[v]) && IsVersion(c, rows[w]);
    var j: nat :| Writes(c, j, id) && rows[v] == VersionAt(c, j, id);
    var k: nat :| Writes(c, k, id) && rows[w] == VersionAt(c, k, id);
    assert j == k;
  }

  /** CleanUpFork deletes exactly the rows created at b or later and reopens
      exactly those closed at b or later, even after a crash recovery. */
  lemma ForkRowIsRewind(r: Row, b: nat)
    requires RowOk(r)
    ensures DeletedByFork(r, b) <==> b <= r.range.lower
    ensures !DeletedByFork(r, b) ==> RowOk(ForkRow(r, b)) && Settle(ForkRow(r, b)) == Rewind(Settle(r), b)
    ensures !DeletedByFork(r, b) && Settle(r) == r ==> ForkRow(r, b) == Rewind(r, b)
    ensures !DeletedByFork(r, b) && r.range.upper.Some? ==>
              (ReopenedByFork(r, b) <==> b <= r.range.upper.value)
  {
  }

  lemma ForkIsRewind(rows: Rows, b: nat)
    requires forall v | v in rows :: RowOk(rows[v])
    ensures Settled(ForkRows(rows, b)) == RewindRows(Settled(rows), b)
    ensures forall v | v in ForkRows(rows, b) :: RowOk(ForkRows(rows, b)[v])
    ensures Exact(rows) ==> ForkRows(rows, b) == RewindRows(rows, b)
    ensures Exact(rows) ==> Exact(ForkRows(rows, b))
  {
    hide DeletedByFork, ReopenedByFork, ForkRow, Rewind;
    forall v | v in rows { ForkRowIsRewind(rows[v], b); }
  }

  /** A fork cleanup keeps the invariant. */
  lemma ForkWellFormed(rows: Rows, b: nat)
    requires WellFormed(rows)
    ensures WellFormed(ForkRows(rows, b))
  {
    hide DeletedByFork;
    ForkIsRewind(rows, b);
    var back := ForkRows(rows, b);
    forall v, w | v in back && w in back && v != w && back[v].id == back[w].id
      ensures Disjoint(back[v].range, back[w].range)
    {
      assert Disjoint(rows[v].range, rows[w].range);
      ForkRowIsRewind(rows[v], b);
      ForkRowIsRewind(rows[w], b);
    }
  }

  /** A fork cleanup that stopped anywhere may be run again: twice does what once
      does, and so does a rerun after the DELETE alone. */
  lemma ForkAgain(rows: Rows, b: nat)
    requires forall v | v in rows :: RowOk(rows[v])
    ensures ForkRows(ForkRows(rows, b), b) == ForkRows(rows, b)
    ensures ForkRows(map v | v in rows && !DeletedByFork(rows[v], b) :: rows[v], b) == ForkRows(rows, b)
  {
    hide RowOk;
    forall v | v in rows && !DeletedByFork(rows[v], b) { ForkRowAgain(rows[v], b); }
  }

  lemma ForkRowAgain(r: Row, b: nat)
    requires RowOk(r) && !DeletedByFork(r, b)
    ensures !DeletedByFork(ForkRow(r, b), b) && ForkRow(ForkRow(r, b), b) == ForkRow(r, b)
  {
  }

  /** Fork undo: CleanUpFork(b) leaves the table of the saves before b. */
  lemma ForkTracks(rows: Rows, c: Chain, b: nat)
    requires Increasing(c) && Tracks(rows, c)
    ensures Tracks(ForkRows(rows, b), Before(c, b))
  {
    ForkIsRewind(rows, b);
    RewindRepresents(Settled(rows), c, b);
  }

  /** An open row whose updated number is wrong about whether block n + 1 created it. */
  predicate Stale(r: Row, n: nat) {
    r.range.Open() && (r.updated == n + 1 <==> r.range.lower != n + 1)
  }

  ghost predicate HasStale(rows: Rows, n: nat) {
    exists v | v in rows :: Stale(rows[v], n)
  }

  lemma RecoverRowIsRewind(r: Row, n: nat)
    requires RowOk(r) && !Stale(r, n)
    requires r.range.lower <= n + 1 && (r.range.upper.Some? ==> r.range.upper.value <= n + 1)
    ensures DeletedByRecovery(r, n) <==> n + 1 <= r.range.lower
    ensures !DeletedByRecovery(r, n) ==> RowOk(RecoverRow(r, n)) && Settle(RecoverRow(r, n)) == Rewind(Settle(r), n + 1)
  {
  }

  lemma RecoverIsRewind(rows: Rows, n: nat)
    requires forall v | v in rows :: RowOk(rows[v])
    requires Below(rows, n + 2) && !HasStale(rows, n)
    ensures Settled(RecoverRows(rows, n)) == RewindRows(Settled(rows), n + 1)
    ensures forall v | v in RecoverRows(rows, n) :: RowOk(RecoverRows(rows, n)[v])
  {
    hide DeletedByRecovery, RecoverRow, Rewind;
    forall v | v in rows
      ensures DeletedByRecovery(rows[v], n) <==> n + 1 <= rows[v].range.lower
      ensures !DeletedByRecovery(rows[v], n) ==>
                && RowOk(RecoverRow(rows[v], n))
                && Settle(RecoverRow(rows[v], n)) == Rewind(Settle(rows[v]), n + 1)
    {
      RecoverRowIsRewind(rows[v], n);
    }
  }

  /** CleanDataAtBlock(n) restores block n exactly when no row is stale: the
      statements cannot tell a stale row from one created by block n + 1. */
  lemma RecoverTracksIff(rows: Rows, c: Chain, n: nat)
    requires Increasing(c) && EndsBelow(c, n + 2) && Tracks(rows, c)
    ensures Tracks(RecoverRows(rows, n), Before(c, n + 1)) <==> !HasStale(rows, n)
  {
    TracksBelow(rows, c, n + 2);
    if !HasStale(rows, n) {
      RecoverIsRewind(rows, n);
      RewindRepresents(Settled(rows), c, n + 1);
    } else {
      var v :| v in rows && Stale(rows[v], n);
      if rows[v].updated == n + 1 {
        StaleOldRow(rows, c, n, v);
      } else {
        StaleNewRow(rows, c, n, v);
      }
    }
  }

  ghost predicate CreatedAt(c: Chain, k: nat, id: Id, block: nat) {
    Writes(c, k, id) && c[k].block == block
  }

  /** A version created before block b belongs to the chain before b too. */
  lemma OldVersionSurvives(c: Chain, r: Row, b: nat)
    requires Increasing(c) && IsVersion(c, r) && r.range.Span? && r.range.lower < b
    ensures exists k: nat :: CreatedAt(Before(c, b), k, r.id, r.range.lower)
  {
    var k: nat :| Writes(c, k, r.id) && r == VersionAt(c, k, r.id);
    VersionPrefix(c, Before(c, b), k, r.id, b);
    assert CreatedAt(Before(c, b), k, r.id, r.range.lower);
  }

  /** An older row that carries the number n + 1 is deleted. */
  lemma StaleOldRow(rows: Rows, c: Chain, n: nat, v: Vid)
    requires Increasing(c) && Tracks(rows, c) && v in rows
    requires rows[v].range.Open() && rows[v].range.lower <= n && rows[v].updated == n + 1
    ensures !Tracks(RecoverRows(rows, n), Before(c, n + 1))
  {
    hide Increasing, Before;
    var back := RecoverRows(rows, n);
    var p := Before(c, n + 1);
    var id := rows[v].id;
    assert IsVersion(c, Settled(rows)[v]);
    OldVersionSurvives(c, Settled(rows)[v], n + 1);
    var k: nat :| CreatedAt(p, k, id, rows[v].range.lower);
    forall w | w in back
      ensures Settled(back)[w] != VersionAt(p, k, id)
    {
      if rows[w].id == id && rows[w].range.lower == rows[v].range.lower {
        SameVersion(Settled(rows), c, v, w);
      }
    }
    assert !HasRow(Settled(back), VersionAt(p, k, id));
  }

  /** A row that block n + 1 created is kept when it carries another number. */
  lemma StaleNewRow(rows: Rows, c: Chain, n: nat, v: Vid)
    requires Increasing(c) && Tracks(rows, c) && v in rows
    requires rows[v].range.Open() && rows[v].range.lower == n + 1 && rows[v].updated != n + 1
    ensures !Tracks(RecoverRows(rows, n), Before(c, n + 1))
  {
    var back := RecoverRows(rows, n);
    var p := Before(c, n + 1);
    BeforeIsPrefix(c, n + 1);
    assert v in back && back[v] == rows[v];
    if IsVersion(p, Settled(back)[v]) {
      VersionBelow(p, Settled(back)[v], n + 1);
    }
  }

  // ---------------------------------------------------------------------
  // Crash and replay
  // ---------------------------------------------------------------------

  /** What a crash can leave of the save of block n: nothing, the UPDATE alone
      (without transactions), or the whole save. */
  ghost predicate PartlySaved(rows: Rows, left: Rows, n: nat, changes: Changes, vids: map<Vid, Id>)
    requires WellFormed(rows) && Below(rows, n) && Assigns(rows, changes, vids)
  {
    || left == rows
    || left == CloseRows(rows, n, changes)
    || left == SaveRows(rows, n, changes, vids)
  }

  /** The table before the crash, up to the updated number of some rows the save had closed. */
  ghost predicate RestoredUpToUpdated(rows: Rows, back: Rows, n: nat, changes: Changes) {
    && back.Keys == rows.Keys
    && forall v | v in rows ::
         || back[v] == rows[v]
         || (rows[v].range.Open() && rows[v].id in changes && back[v] == rows[v].(updated := n + 1))
  }

  lemma RecoverRestoresRow(r: Row, n: nat)
    requires RowOk(r) && r.range.lower <= n && (r.range.upper.Some? ==> r.range.upper.value <= n)
    ensures RecoverRow(r, n) == r
    ensures r.range.Open() ==>
              && !DeletedByRecovery(CloseRow(r, n + 1), n)
              && RecoverRow(CloseRow(r, n + 1), n) == r.(updated := n + 1)
  {
  }

  lemma LeftRowRecovers(rows: Rows, left: Rows, n: nat, changes: Changes, vids: map<Vid, Id>, v: Vid)
    requires WellFormed(rows) && Below(rows, n + 1) && Assigns(rows, changes, vids)
    requires PartlySaved(rows, left, n + 1, changes, vids) && v in rows
    requires left == rows || DeletesLive(rows, changes)
    ensures v in left
    ensures left[v] == rows[v] ==> RecoverRow(left[v], n) == rows[v]
    ensures left[v] != rows[v] ==>
              && !DeletedByRecovery(left[v], n)
              && rows[v].range.Open() && rows[v].id in changes && RecoverRow(left[v], n) == rows[v].(updated := n + 1)
  {
    hide DeletedByRecovery, RecoverRow;
    RecoverRestoresRow(rows[v], n);
    if left != rows {
      ClosesOpenRows(rows, changes, v);
      assert v !in vids;
    }
  }

  lemma LeftNewRowGoes(rows: Rows, left: Rows, n: nat, changes: Changes, vids: map<Vid, Id>, v: Vid)
    requires WellFormed(rows) && Below(rows, n + 1) && Assigns(rows, changes, vids)
    requires PartlySaved(rows, left, n + 1, changes, vids) && v in left && v !in rows
    ensures DeletedByRecovery(left[v], n)
  {
    assert left[v] == NewRow(n + 1, changes, vids[v]);
  }

  /** If the save began and deletes a dead id, the recovery brings that id back to life. */
  lemma DeadDeleteIsReopened(rows: Rows, left: Rows, n: nat, changes: Changes, vids: map<Vid, Id>)
    requires WellFormed(rows) && Below(rows, n + 1) && Assigns(rows, changes, vids)
    requires PartlySaved(rows, left, n + 1, changes, vids) && left != rows && !DeletesLive(rows, changes)
    ensures !RestoredUpToUpdated(rows, RecoverRows(left, n), n, changes)
  {
    var v :| v in rows && rows[v].id in changes && changes[rows[v].id].None?
             && IsLatest(rows, v) && !rows[v].range.Open();
    assert ClosedBySave(rows, changes, v) && v !in vids;
    hide ClosedBySave, IsLatest, DeletesLive;
    assert left[v] == CloseRow(rows[v], n + 1);
    ReopenedRow(rows[v], n);
    assert v in RecoverRows(left, n) && RecoverRows(left, n)[v].range.Open();
  }

  lemma ReopenedRow(r: Row, n: nat)
    requires RowOk(r) && r.range.lower < n + 1
    ensures !DeletedByRecovery(CloseRow(r, n + 1), n) && RecoverRow(CloseRow(r, n + 1), n).range.Open()
  {
  }

  /** One CleanDataAtBlock(n) after a crash within block n + 1 restores every row and
      vid exactly when the block deletes no dead id, unless it changed nothing, and
      no row that the save left alone reads as one of block n + 1. */
  lemma RecoverRestoresIff(rows: Rows, left: Rows, n: nat, changes: Changes, vids: map<Vid, Id>)
    requires WellFormed(rows) && Below(rows, n + 1) && Assigns(rows, changes, vids)
    requires PartlySaved(rows, left, n + 1, changes, vids)
    ensures RestoredUpToUpdated(rows, RecoverRows(left, n), n, changes) <==>
            && (left == rows || DeletesLive(rows, changes))
            && forall v | v in rows && v in left && left[v] == rows[v] :: !DeletedByRecovery(rows[v], n)
  {
    if left == rows || DeletesLive(rows, changes) {
      hide PartlySaved, WellFormed, DeletesLive, DeletedByRecovery, RecoverRow;
      forall v | v in rows { LeftRowRecovers(rows, left, n, changes, vids, v); }
      forall v | v in left && v !in rows { LeftNewRowGoes(rows, left, n, changes, vids, v); }
    } else {
      hide PartlySaved, RestoredUpToUpdated, RecoverRows, DeletesLive;
      DeadDeleteIsReopened(rows, left, n, changes, vids);
    }
  }

  lemma RecoverRestores(rows: Rows, left: Rows, n: nat, changes: Changes, vids: map<Vid, Id>)
    requires WellFormed(rows) && Below(rows, n + 1) && Assigns(rows, changes, vids) && DeletesLive(rows, changes)
    requires !HasStale(rows, n) && PartlySaved(rows, left, n + 1, changes, vids)
    ensures RestoredUpToUpdated(rows, RecoverRows(left, n), n, changes)
  {
    hide PartlySaved, DeletesLive, RestoredUpToUpdated;
    RecoverRestoresIff(rows, left, n, changes, vids);
    forall v | v in rows
      ensures !DeletedByRecovery(rows[v], n)
    {
      assert !Stale(rows[v], n) && RowOk(rows[v]);
    }
  }

  /** What a recovery keeps of a row: the row itself, or the row that the save had closed, open again. */
  lemma RecoveredRow(rows: Rows, left: Rows, n: nat, changes: Changes, vids: map<Vid, Id>, v: Vid)
    requires WellFormed(rows) && Below(rows, n + 1) && Assigns(rows, changes, vids)
    requires PartlySaved(rows, left, n + 1, changes, vids) && v in RecoverRows(left, n)
    ensures v in rows && rows[v].range.Span?
    ensures || RecoverRows(left, n)[v] == rows[v]
            || (ClosedBySave(rows, changes, v)
                && RecoverRows(left, n)[v] == rows[v].(range := Span(rows[v].range.lower, None), updated := n + 1))
  {
    if v !in rows {
      LeftNewRowGoes(rows, left, n, changes, vids, v);
    } else {
      assert left[v] == rows[v] || (ClosedBySave(rows, changes, v) && left[v] == CloseRow(rows[v], n + 1));
    }
  }

  /** Crash and recovery keep the invariant, stale rows and dead deletes included. */
  lemma RecoverWellFormed(rows: Rows, left: Rows, n: nat, changes: Changes, vids: map<Vid, Id>)
    requires WellFormed(rows) && Below(rows, n + 1) && Assigns(rows, changes, vids)
    requires PartlySaved(rows, left, n + 1, changes, vids)
    ensures WellFormed(RecoverRows(left, n))
  {
    hide PartlySaved, RecoverRows, ClosedBySave;
    var back := RecoverRows(left, n);
    forall v | v in back
      ensures RowOk(back[v])
    {
      RecoveredRow(rows, left, n, changes, vids, v);
    }
    forall v, w | v in back && w in back && v != w && back[v].id == back[w].id
      ensures Disjoint(back[v].range, back[w].range)
    {
      RecoveredRow(rows, left, n, changes, vids, v);
      RecoveredRow(rows, left, n, changes, vids, w);
      RecoveredDisjoint(rows, changes, v, w);
    }
  }

  /** Of two rows of an id at most one is closed by the save, and the other ends before it starts. */
  lemma RecoveredDisjoint(rows: Rows, changes: Changes, v: Vid, w: Vid)
    requires WellFormed(rows) && v in rows && w in rows && v != w && rows[v].id == rows[w].id
    ensures Disjoint(rows[v].range, rows[w].range)
    ensures !(ClosedBySave(rows, changes, v) && ClosedBySave(rows, changes, w))
    ensures ClosedBySave(rows, changes, v) ==>
              rows[w].range.upper.Some? && rows[w].range.upper.value <= rows[v].range.lower
    ensures ClosedBySave(rows, changes, w) ==>
              rows[v].range.upper.Some? && rows[v].range.upper.value <= rows[w].range.lower
  {
    hide ClosedBySave;
    if ClosedBySave(rows, changes, v) {
      ClosedIsLast(rows, changes, v, w);
      if ClosedBySave(rows, changes, w) {
        OneClosedRow(rows, changes, v, w);
      }
    } else if ClosedBySave(rows, changes, w) {
      ClosedIsLast(rows, changes, w, v);
    }
  }

  lemma RestoredIsWellFormed(rows: Rows, back: Rows, n: nat, changes: Changes)
    requires WellFormed(rows) && Below(rows, n + 1) && RestoredUpToUpdated(rows, back, n, changes)
    ensures WellFormed(back) && Below(back, n + 1)
    ensures forall v | v in rows :: IsLatest(back, v) == IsLatest(rows, v)
  {
    assert forall v | v in rows :: back[v].id == rows[v].id && back[v].range == rows[v].range;
  }

  lemma ReplayClosesRow(rows: Rows, back: Rows, n: nat, changes: Changes, v: Vid)
    requires WellFormed(rows) && RestoredUpToUpdated(rows, back, n, changes) && v in rows
    requires IsLatest(back, v) == IsLatest(rows, v)
    ensures back[v].id == rows[v].id && back[v].range == rows[v].range && back[v].fields == rows[v].fields
    ensures ClosedBySave(back, changes, v) <==> ClosedBySave(rows, changes, v)
    ensures !ClosedBySave(rows, changes, v) ==> back[v] == rows[v]
  {
    if rows[v].range.Open() {
      OpenIsLatest(rows, v);
    }
    hide IsLatest;
  }

  lemma ReplayCloses(rows: Rows, back: Rows, n: nat, changes: Changes)
    requires WellFormed(rows) && Below(rows, n + 1) && RestoredUpToUpdated(rows, back, n, changes)
    requires WellFormed(back) && Below(back, n + 1) && forall v | v in rows :: IsLatest(back, v) == IsLatest(rows, v)
    ensures CloseRows(back, n + 1, changes) == CloseRows(rows, n + 1, changes)
  {
    hide WellFormed, IsLatest, ClosedBySave;
    forall v | v in rows
      ensures CloseRows(back, n + 1, changes)[v] == CloseRows(rows, n + 1, changes)[v]
    {
      ReplayClosesRow(rows, back, n, changes, v);
    }
  }

  lemma ReplayDeletes(rows: Rows, back: Rows, n: nat, changes: Changes)
    requires RestoredUpToUpdated(rows, back, n, changes)
    requires forall v | v in rows :: IsLatest(back, v) == IsLatest(rows, v)
    ensures DeletesLive(back, changes) <==> DeletesLive(rows, changes)
  {
    assert forall v | v in rows :: back[v].id == rows[v].id && back[v].range == rows[v].range;
    hide IsLatest, RestoredUpToUpdated;
  }

  lemma SameVidsAssigned(rows: Rows, back: Rows, changes: Changes, vids: map<Vid, Id>)
    requires back.Keys == rows.Keys
    ensures Assigns(back, changes, vids) <==> Assigns(rows, changes, vids)
  {
  }

  /** Replaying the block gives what a crash-free run gives, updated numbers
      included: each outcome of the replay is one of the first attempt. */
  lemma ReplayIsExact(rows: Rows, back: Rows, n: nat, changes: Changes, vids: map<Vid, Id>)
    requires WellFormed(rows) && Below(rows, n + 1) && RestoredUpToUpdated(rows, back, n, changes)
    ensures WellFormed(back) && Below(back, n + 1)
    ensures DeletesLive(back, changes) <==> DeletesLive(rows, changes)
    ensures Assigns(back, changes, vids) <==> Assigns(rows, changes, vids)
    ensures Assigns(rows, changes, vids) ==>
              SaveRows(back, n + 1, changes, vids) == SaveRows(rows, n + 1, changes, vids)
  {
    RestoredIsWellFormed(rows, back, n, changes);
    ReplayCloses(rows, back, n, changes);
    ReplayDeletes(rows, back, n, changes);
    SameVidsAssigned(rows, back, changes, vids);
    hide WellFormed, RestoredUpToUpdated, DeletesLive, IsLatest, CloseRows, Assigns;
  }

  /** The recovery statements reopen this row. */
  predicate ReopenedByRecovery(r: Row, n: nat) {
    r.range.Contains(n) && r.range.UpperIs(n + 1) && r.updated == n + 1
  }

  /** A second recovery of the same block changes nothing exactly when the first
      one reopens no row. */
  lemma RecoverTwiceIff(rows: Rows, n: nat)
    ensures RecoverRows(RecoverRows(rows, n), n) == RecoverRows(rows, n)
            <==> forall v | v in rows :: !ReopenedByRecovery(rows[v], n)
  {
    var once := RecoverRows(rows, n);
    if v :| v in rows && ReopenedByRecovery(rows[v], n) {
      assert v in once && DeletedByRecovery(once[v], n);
      assert v !in RecoverRows(once, n);
    }
  }

  /** Two recoveries of the same block in a row lose data: the second takes the
      row the first one reopened for a row of the undone block. Here block 6 is
      saved over a row of block 4, and recovered twice to block 5. */
  lemma SecondRecoveryLosesRows(rows: Rows, changes: Changes, vids: map<Vid, Id>)
    requires rows == map[1 := Row("pair", Span(4, None), 4, map["price" := "7"])]
    requires changes == map["pair" := Some(map["price" := "8"])] && vids == map[2 := "pair"]
    ensures WellFormed(rows) && Below(rows, 6) && Assigns(rows, changes, vids)
    ensures var once := RecoverRows(SaveRows(rows, 6, changes, vids), 5);
            once == map[1 := rows[1].(updated := 6)] && RecoverRows(once, 5) == map[]
  {
    SaveOverBlockFour(rows, changes, vids);
    hide SaveRows;
    var saved := SaveRows(rows, 6, changes, vids);
    assert !DeletedByRecovery(saved[1], 5) && DeletedByRecovery(saved[2], 5);
    assert RecoverRows(saved, 5) == map[1 := rows[1].(updated := 6)];
  }

  /** The save of that example. */
  lemma SaveOverBlockFour(rows: Rows, changes: Changes, vids: map<Vid, Id>)
    requires rows == map[1 := Row("pair", Span(4, None), 4, map["price" := "7"])]
    requires changes == map["pair" := Some(map["price" := "8"])] && vids == map[2 := "pair"]
    ensures WellFormed(rows) && Below(rows, 6) && Assigns(rows, changes, vids)
    ensures SaveRows(rows, 6, changes, vids)
            == map[1 := Row("pair", Span(4, Some(6)), 6, map["price" := "7"]),
                   2 := Row("pair", Span(6, None), 6, map["price" := "8"])]
  {
    assert vids[2] == "pair" && Live(changes, "pair");
    assert ClosedBySave(rows, changes, 1);
    assert SaveRows(rows, 6, changes, vids) == map[1 := CloseRow(rows[1], 6), 2 := NewRow(6, changes, "pair")];
  }

  // ---------------------------------------------------------------------
  // Time travel
  // ---------------------------------------------------------------------

  /** One block applied to the plain live state. */
  function ApplyChanges(live: map<Id, Fields>, changes: Changes): map<Id, Fields> {
    map id | id in live.Keys + changes.Keys && (id in changes ==> changes[id].Some?) ::
      if id in changes then changes[id].value else live[id]
  }

  ghost function LiveAfter(c: Chain): map<Id, Fields> {
    if c == [] then map[] else ApplyChanges(LiveAfter(c[..|c| - 1]), c[|c| - 1].changes)
  }

  /** The answer of `SELECT * WHERE block_range @> m` for one id. */
  ghost predicate AsOf(rows: Rows, m: nat, id: Id, fields: Fields) {
    exists v :: v in rows && rows[v].id == id && rows[v].range.Contains(m) && rows[v].fields == fields
  }

  lemma {:induction false} LiveAfterLastWrite(c: Chain, id: Id)
    requires Increasing(c)
    ensures id in LiveAfter(c) ==>
              exists k: nat :: Writes(c, k, id) && NextTouch(c, k + 1, id).None?
    ensures forall k: nat | Writes(c, k, id) && NextTouch(c, k + 1, id).None? ::
              id in LiveAfter(c) && LiveAfter(c)[id] == c[k].changes[id].value
  {
    if c == [] {
    } else {
      var p, s := c[..|c| - 1], c[|c| - 1];
      assert c == p + [s];
      LiveAfterLastWrite(p, id);
      if id in LiveAfter(c) && id !in s.changes {
        var k: nat :| Writes(p, k, id) && NextTouch(p, k + 1, id).None?;
        NextTouchExtend(p, s, k + 1, id);
        assert Writes(c, k, id);
      } else if id in LiveAfter(c) {
        assert Writes(c, |p|, id) && NextTouch(c, |p| + 1, id).None?;
      }
      forall k: nat | Writes(c, k, id) && NextTouch(c, k + 1, id).None?
        ensures id in LiveAfter(c) && LiveAfter(c)[id] == c[k].changes[id].value
      {
        if k < |p| {
          NextTouchExtend(p, s, k + 1, id);
          assert Writes(p, k, id);
        }
      }
    }
  }

  lemma OpenRowsAreLive(rows: Rows, c: Chain, id: Id)
    requires Increasing(c) && Represents(rows, c)
    ensures id in LiveAfter(c) <==> exists v :: v in rows && rows[v].id == id && rows[v].range.Open()
    ensures forall v | v in rows && rows[v].id == id && rows[v].range.Open() :: rows[v].fields == LiveAfter(c)[id]
  {
    LiveAfterLastWrite(c, id);
    if id in LiveAfter(c) {
      var k: nat :| Writes(c, k, id) && NextTouch(c, k + 1, id).None?;
      assert HasRow(rows, VersionAt(c, k, id));
    }
    forall v | v in rows && rows[v].id == id && rows[v].range.Open()
      ensures id in LiveAfter(c) && rows[v].fields == LiveAfter(c)[id]
    {
      assert IsVersion(c, rows[v]);
    }
  }

  lemma ContainsIsOpenAfterRewind(r: Row, m: nat)
    requires RowOk(r)
    ensures r.range.Contains(m) <==> r.range.lower < m + 1 && Rewind(Settle(r), m + 1).range.Open()
    ensures Rewind(Settle(r), m + 1).id == r.id && Rewind(Settle(r), m + 1).fields == r.fields
  {
  }

  lemma AsOfIsOpenAfterRewind(rows: Rows, m: nat, id: Id, f: Fields)
    requires forall v | v in rows :: RowOk(rows[v])
    ensures AsOf(rows, m, id, f) <==>
            var back := RewindRows(Settled(rows), m + 1);
            exists v :: v in back && back[v].id == id && back[v].range.Open() && back[v].fields == f
  {
    var back := RewindRows(Settled(rows), m + 1);
    if AsOf(rows, m, id, f) {
      var v :| v in rows && rows[v].id == id && rows[v].range.Contains(m) && rows[v].fields == f;
      ContainsIsOpenAfterRewind(rows[v], m);
      assert v in back && back[v] == Rewind(Settle(rows[v]), m + 1);
    }
    if v :| v in back && back[v].id == id && back[v].range.Open() && back[v].fields == f {
      ContainsIsOpenAfterRewind(rows[v], m);
      assert v in rows && back[v] == Rewind(Settle(rows[v]), m + 1);
    }
  }

  /** Time travel: the rows that contain m are the live state after the last
      save at or before m. */
  lemma TimeTravel(rows: Rows, c: Chain, m: nat, id: Id, f: Fields)
    requires Increasing(c) && Tracks(rows, c)
    ensures var live := LiveAfter(Before(c, m + 1));
            AsOf(rows, m, id, f) <==> id in live && live[id] == f
  {
    BeforeIsPrefix(c, m + 1);
    RewindRepresents(Settled(rows), c, m + 1);
    OpenRowsAreLive(RewindRows(Settled(rows), m + 1), Before(c, m + 1), id);
    AsOfIsOpenAfterRewind(rows, m, id, f);
  }

  /** ... and no id has two of them. */
  lemma OneRowPerBlock(rows: Rows, m: nat, v: Vid, w: Vid)
    requires WellFormed(rows) && v in rows && w in rows && rows[v].id == rows[w].id
    requires rows[v].range.Contains(m) && rows[w].range.Contains(m)
    ensures v == w
  {
    assert v == w || Disjoint(rows[v].range, rows[w].range);
  }

  // ---------------------------------------------------------------------
  // Deleting an id that is already dead
  // ---------------------------------------------------------------------

  ghost predicate SameHistory(a: Rows, b: Rows, n: nat) {
    forall m: nat, id, f | m < n :: AsOf(a, m, id, f) <==> AsOf(b, m, id, f)
  }

  lemma LiveDeletesKeepRow(rows: Rows, n: nat, changes: Changes, vids: map<Vid, Id>, m: nat, v: Vid)
    requires WellFormed(rows) && Below(rows, n) && 0 < n && m < n
    requires DeletesLive(rows, changes) && Assigns(rows, changes, vids) && v in SaveRows(rows, n, changes, vids)
    ensures var r := SaveRows(rows, n, changes, vids)[v];
            && (v in rows ==> r.id == rows[v].id && r.fields == rows[v].fields)
            && (r.range.Contains(m) <==> v in rows && rows[v].range.Contains(m))
  {
    hide Settle, ClosedBySave, SaveRows;
    SavedRow(rows, n, changes, vids, v);
  }

  lemma LiveDeletesKeepAsOf(rows: Rows, n: nat, changes: Changes, vids: map<Vid, Id>, m: nat, id: Id, f: Fields)
    requires WellFormed(rows) && Below(rows, n) && 0 < n && m < n
    requires DeletesLive(rows, changes) && Assigns(rows, changes, vids)
    ensures AsOf(rows, m, id, f) <==> AsOf(SaveRows(rows, n, changes, vids), m, id, f)
  {
    hide ClosedBySave, WellFormed, Assigns, DeletesLive;
    var saved := SaveRows(rows, n, changes, vids);
    forall v | v in saved { LiveDeletesKeepRow(rows, n, changes, vids, m, v); }
    assert forall v | v in rows :: v in saved;
    if AsOf(rows, m, id, f) {
      var v :| v in rows && rows[v].id == id && rows[v].range.Contains(m) && rows[v].fields == f;
      assert saved[v].range.Contains(m);
    }
    if AsOf(saved, m, id, f) {
      var v :| v in saved && saved[v].id == id && saved[v].range.Contains(m) && saved[v].fields == f;
      assert rows[v].range.Contains(m);
    }
  }

  lemma DeadDeleteRewritesHistory(rows: Rows, n: nat, changes: Changes, vids: map<Vid, Id>, v: Vid)
    requires WellFormed(rows) && Below(rows, n) && Assigns(rows, changes, vids)
    requires v in rows && rows[v].id in changes && changes[rows[v].id].None?
    requires IsLatest(rows, v) && !rows[v].range.Open()
    ensures var e := rows[v].range.upper.value;
            && e < n
            && AsOf(SaveRows(rows, n, changes, vids), e, rows[v].id, rows[v].fields)
            && !AsOf(rows, e, rows[v].id, rows[v].fields)
  {
    var e := rows[v].range.upper.value;
    var saved := SaveRows(rows, n, changes, vids);
    assert ClosedBySave(rows, changes, v) && v !in vids;
    assert saved[v] == CloseRow(rows[v], n);
    forall w | w in rows && rows[w].id == rows[v].id
      ensures !rows[w].range.Contains(e)
    {
      assert rows[w].range.AtMost(rows[v].range);
      assert w == v || Disjoint(rows[w].range, rows[v].range);
    }
  }

  /** A save leaves every view of earlier blocks unchanged exactly when each id
      it deletes is live or was never stored; deleting a dead id brings its last
      version back to life for the blocks in between. */
  lemma SaveKeepsHistoryIff(rows: Rows, n: nat, changes: Changes, vids: map<Vid, Id>)
    requires WellFormed(rows) && Below(rows, n) && 0 < n && Assigns(rows, changes, vids)
    ensures SameHistory(rows, SaveRows(rows, n, changes, vids), n) <==> DeletesLive(rows, changes)
  {
    if DeletesLive(rows, changes) {
      forall m: nat, id, f | m < n
        ensures AsOf(rows, m, id, f) <==> AsOf(SaveRows(rows, n, changes, vids), m, id, f)
      {
        LiveDeletesKeepAsOf(rows, n, changes, vids, m, id, f);
      }
    } else {
      var v :| v in rows && rows[v].id in changes && changes[rows[v].id].None?
               && IsLatest(rows, v) && !rows[v].range.Open();
      DeadDeleteRewritesHistory(rows, n, changes, vids, v);
    }
  }

  /** A save extends the chain exactly when each id it deletes is live or was never stored. */
  lemma SaveTracksIff(rows: Rows, c: Chain, n: nat, changes: Changes, vids: map<Vid, Id>)
    requires Increasing(c) && EndsBelow(c, n) && 0 < n && Tracks(rows, c)
    requires WellFormed(rows) && Below(rows, n) && Assigns(rows, changes, vids)
    ensures Increasing(c + [Save(n, changes)])
    ensures Tracks(SaveRows(rows, n, changes, vids), c + [Save(n, changes)]) <==> DeletesLive(rows, changes)
  {
    if DeletesLive(rows, changes) {
      SaveTracks(rows, c, n, changes, vids);
    } else {
      assert Increasing(c + [Save(n, changes)]);
      hide Tracks, SaveRows;
      var v :| v in rows && rows[v].id in changes && changes[rows[v].id].None?
               && IsLatest(rows, v) && !rows[v].range.Open();
      DeadDeleteBreaksChain(rows, c, n, changes, vids, v);
    }
  }

  lemma DeadDeleteBreaksChain(rows: Rows, c: Chain, n: nat, changes: Changes, vids: map<Vid, Id>, v: Vid)
    requires Increasing(c) && EndsBelow(c, n) && 0 < n && Tracks(rows, c)
    requires WellFormed(rows) && Below(rows, n) && Assigns(rows, changes, vids)
    requires v in rows && rows[v].id in changes && changes[rows[v].id].None?
    requires IsLatest(rows, v) && !rows[v].range.Open()
    requires Increasing(c + [Save(n, changes)])
    ensures !Tracks(SaveRows(rows, n, changes, vids), c + [Save(n, changes)])
  {
    DeadDeleteRewritesHistory(rows, n, changes, vids, v);
    var e := rows[v].range.upper.value;
    BeforeSnoc(c, Save(n, changes), e + 1);
    hide *;
    if Tracks(SaveRows(rows, n, changes, vids), c + [Save(n, changes)]) {
      SameView(rows, SaveRows(rows, n, changes, vids), c, c + [Save(n, changes)], e, rows[v].id, rows[v].fields);
    }
  }

  lemma BeforeSnoc(c: Chain, s: Save, b: nat)
    requires b <= s.block
    ensures Before(c + [s], b) == Before(c, b)
  {
    assert (c + [s])[..|c|] == c;
  }

  /** What happens from block m + 1 on does not change a view at m. */
  lemma SameView(a: Rows, b: Rows, c: Chain, d: Chain, m: nat, id: Id, f: Fields)
    requires Increasing(c) && Tracks(a, c) && Increasing(d) && Tracks(b, d) && Before(c, m + 1) == Before(d, m + 1)
    ensures AsOf(a, m, id, f) <==> AsOf(b, m, id, f)
  {
    TimeTravel(a, c, m, id, f);
    TimeTravel(b, d, m, id, f);
  }

  // ---------------------------------------------------------------------
  // Equality up to vids
  // ---------------------------------------------------------------------

  /** How many times the table holds this row, whatever the vids. */
  ghost function Count(rows: Rows, r: Row): nat {
    |set v | v in rows && rows[v] == r|
  }

  ghost predicate EqualUpToVids(a: Rows, b: Rows) {
    forall r :: Count(a, r) == Count(b, r)
  }

  lemma CountVersion(rows: Rows, c: Chain, r: Row)
    requires Represents(rows, c)
    ensures Count(rows, r) == if IsVersion(c, r) then 1 else 0
  {
    var s := set v | v in rows && rows[v] == r;
    if IsVersion(c, r) {
      var k: nat :| Writes(c, k, r.id) && r == VersionAt(c, k, r.id);
      assert HasRow(rows, VersionAt(c, k, r.id));
      var v :| v in rows && rows[v] == r;
      assert s == {v};
    } else {
      assert s == {};
    }
  }

  /** A chain determines its table up to vids. */
  lemma ChainDeterminesTable(a: Rows, b: Rows, c: Chain)
    requires Represents(a, c) && Represents(b, c)
    ensures EqualUpToVids(a, b)
  {
    forall r ensures Count(a, r) == Count(b, r) {
      CountVersion(a, c, r);
      CountVersion(b, c, r);
    }
  }
}
