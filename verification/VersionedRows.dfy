/**
 The rows of one entity table and the SQL statements that rewrite them.

 A row is one version of an entity: it was live for the blocks in `range`.
 Every statement below reads its WHERE and SET clauses literally; range
 operators follow section 8.17 of the PostgreSQL manual.
 */
module VersionedRows {
  import opened Prelude

  type Id = string
  type Vid = nat
  type Fields = map<string, string>

  /** A discrete `int4range` in canonical `[lower,upper)` form. */
  datatype Int4Range = Empty | Span(lower: nat, upper: Option<nat>) {

    /** `range @> m` */
    predicate Contains(m: nat) {
      Span? && lower <= m && (upper.Some? ==> m < upper.value)
    }

    /** `lower(range) = m`; null, hence not true, on the empty range. */
    predicate LowerIs(m: nat) {
      Span? && lower == m
    }

    /** `upper(range) = m`; null, hence not true, on the empty and on an open range. */
    predicate UpperIs(m: nat) {
      Span? && upper == Some(m)
    }

    /** `upper(range) is null` */
    predicate UpperIsNull() {
      Empty? || upper.None?
    }

    predicate Open() {
      Span? && upper.None?
    }

    /** The order of `ORDER BY range`: empty first, then by lower bound, then by upper bound. */
    predicate AtMost(other: Int4Range) {
      || Empty?
      || (other.Span? && lower < other.lower)
      || (other.Span? && lower == other.lower
          && (other.upper.None? || (upper.Some? && upper.value <= other.upper.value)))
    }
  }

  datatype Row = Row(id: Id, range: Int4Range, updated: nat, fields: Fields)

  type Rows = map<Vid, Row>

  /** What one block does to one table: new field values, or None for a delete. */
  type Changes = map<Id, Option<Fields>>

  // ---------------------------------------------------------------------
  // The invariant of a table
  // ---------------------------------------------------------------------

  /** A closed row was last updated by the block that closed it, an open row
      no earlier than the block that created it. */
  predicate RowOk(r: Row) {
    && r.range.Span?
    && 0 < r.range.lower
    && match r.range.upper
       case None => r.range.lower <= r.updated
       case Some(u) => r.range.lower < u && r.updated == u
  }

  predicate Disjoint(a: Int4Range, b: Int4Range) {
    a.Span? && b.Span? ==>
      || (a.upper.Some? && a.upper.value <= b.lower)
      || (b.upper.Some? && b.upper.value <= a.lower)
  }

  /** Per id the ranges are non-empty and pairwise disjoint, so at most one is open. */
  ghost predicate WellFormed(rows: Rows) {
    && (forall v | v in rows :: RowOk(rows[v]))
    && (forall v, w | v in rows && w in rows && v != w && rows[v].id == rows[w].id ::
          Disjoint(rows[v].range, rows[w].range))
  }

  /** Every bound in the table is below block n. */
  ghost predicate Below(rows: Rows, n: nat) {
    forall v | v in rows && rows[v].range.Span? ::
      rows[v].range.lower < n && (rows[v].range.upper.Some? ==> rows[v].range.upper.value < n)
  }

  // ---------------------------------------------------------------------
  // batchSave: one UPDATE of block ranges, one INSERT
  // ---------------------------------------------------------------------

  /** Row v is what `SELECT ... WHERE id = $1 ORDER BY block_range DESC LIMIT 1` returns. */
  predicate IsLatest(rows: Rows, v: Vid)
    requires v in rows
  {
    forall w | w in rows && rows[w].id == rows[v].id :: rows[w].range.AtMost(rows[v].range)
  }

  /** A saved entity closes its open row; a deleted id closes its latest row, open or not. */
  predicate ClosedBySave(rows: Rows, changes: Changes, v: Vid)
    requires v in rows
  {
    && rows[v].id in changes
    && if changes[rows[v].id].Some? then rows[v].range.Open() else IsLatest(rows, v)
  }

  function CloseRow(r: Row, n: nat): Row
    requires r.range.Span? && r.range.lower < n
  {
    r.(range := Span(r.range.lower, Some(n)), updated := n)
  }

  ghost function CloseRows(rows: Rows, n: nat, changes: Changes): Rows
    requires WellFormed(rows) && Below(rows, n)
  {
    map v | v in rows :: if ClosedBySave(rows, changes, v) then CloseRow(rows[v], n) else rows[v]
  }

  predicate Live(changes: Changes, id: Id) {
    id in changes && changes[id].Some?
  }

  /** The vids handed out by the INSERT: one unused vid for each saved entity. */
  ghost predicate Assigns(rows: Rows, changes: Changes, vids: map<Vid, Id>) {
    && vids.Keys !! rows.Keys
    && (forall v | v in vids :: Live(changes, vids[v]))
    && (forall v, w | v in vids && w in vids && vids[v] == vids[w] :: v == w)
    && (forall id | Live(changes, id) :: exists v :: v in vids && vids[v] == id)
  }

  function NewRow(n: nat, changes: Changes, id: Id): Row
    requires Live(changes, id)
  {
    Row(id, Span(n, None), n, changes[id].value)
  }

  function NewRows(n: nat, changes: Changes, vids: map<Vid, Id>): Rows
    requires forall v | v in vids :: Live(changes, vids[v])
  {
    map v | v in vids :: NewRow(n, changes, vids[v])
  }

  ghost function SaveRows(rows: Rows, n: nat, changes: Changes, vids: map<Vid, Id>): Rows
    requires WellFormed(rows) && Below(rows, n) && Assigns(rows, changes, vids)
  {
    CloseRows(rows, n, changes) + NewRows(n, changes, vids)
  }

  // ---------------------------------------------------------------------
  // CleanUpFork: one DELETE, one UPDATE
  // ---------------------------------------------------------------------

  predicate DeletedByFork(r: Row, b: nat) {
    || (r.updated > b && !r.range.Contains(b))
    || (r.updated >= b && r.range.Contains(b) && r.range.LowerIs(b))
  }

  predicate ReopenedByFork(r: Row, b: nat) {
    r.updated >= b && (r.range.Contains(b) || r.range.UpperIs(b))
  }

  function ForkRow(r: Row, b: nat): Row {
    if ReopenedByFork(r, b)
    then r.(range := Span(r.range.lower, None), updated := r.range.lower)
    else r
  }

  function ForkRows(rows: Rows, b: nat): Rows {
    map v | v in rows && !DeletedByFork(rows[v], b) :: ForkRow(rows[v], b)
  }

  /** The ids returned by the two statements. */
  predicate ReturnedByFork(rows: Rows, b: nat, id: Id) {
    exists v | v in rows :: rows[v].id == id && (DeletedByFork(rows[v], b) || ReopenedByFork(rows[v], b))
  }

  // ---------------------------------------------------------------------
  // cleanDBAboveBlockNum: one DELETE, one UPDATE
  // ---------------------------------------------------------------------

  predicate DeletedByRecovery(r: Row, n: nat) {
    r.updated == n + 1 && r.range.UpperIsNull()
  }

  function RecoverRow(r: Row, n: nat): Row {
    if r.range.Contains(n) && r.range.UpperIs(n + 1) && r.updated == n + 1
    then r.(range := Span(r.range.lower, None))
    else r
  }

  function RecoverRows(rows: Rows, n: nat): Rows {
    map v | v in rows && !DeletedByRecovery(rows[v], n) :: RecoverRow(rows[v], n)
  }
}
