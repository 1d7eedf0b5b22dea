/**
 What squashing a block's table changes means, on values: changes to one row
 are sorted by ordinal and folded into one net change.
 */
module Squash {
  import opened Prelude

  datatype Operation = Unset | Create | Update | Delete

  datatype Field = Field(name: string, newValue: string, oldValue: string)

  datatype Change = Change(
    table: string, pk: string, blockNum: nat, ordinal: nat, op: Operation, fields: seq<Field>)
  {
    function RowKey(): (string, string) {
      (table, pk)
    }
  }

  type FieldMap = map<string, Field>

  /** A field list as a map; of two fields of one name the later stands. */
  function AsMap(fs: seq<Field>): FieldMap {
    if fs == [] then map[] else AsMap(fs[..|fs| - 1])[fs[|fs| - 1].name := fs[|fs| - 1]]
  }

  // ---------------------------------------------------------------------
  // Folding the changes of one row
  // ---------------------------------------------------------------------

  /** The field list of an update merged into the running fields; none on a mismatch. */
  function MergeFields(m: FieldMap, fs: seq<Field>): Option<FieldMap> {
    if fs == [] then Some(m) else
    var before := MergeFields(m, fs[..|fs| - 1]);
    var f := fs[|fs| - 1];
    if before.None? then None
    else if f.name !in before.value then Some(before.value[f.name := f])
    else if f.oldValue != before.value[f.name].newValue then None
    else Some(before.value[f.name := Field(f.name, f.newValue, before.value[f.name].oldValue)])
  }

  /** The running change of one row. */
  datatype Net = Net(op: Operation, fields: FieldMap, ordinal: nat, blockNum: nat)

  function Start(c: Change): Net {
    Net(c.op, AsMap(c.fields), c.ordinal, c.blockNum)
  }

  function Step(x: Net, next: Change): Option<Net> {
    if x.ordinal >= next.ordinal then None else
    match next.op
    case Delete => Some(Start(next))
    case Create => if x.op != Delete then None else Some(Start(next))
    case Update =>
      var fields := MergeFields(x.fields, next.fields);
      if fields.None? then None else Some(Net(x.op, fields.value, next.ordinal, next.blockNum))
    case Unset => Some(Net(x.op, x.fields, next.ordinal, next.blockNum))
  }

  function Fold(s: seq<Change>): Option<Net>
    requires s != []
  {
    if |s| == 1 then Some(Start(s[0])) else
    var x := Fold(s[..|s| - 1]);
    if x.None? then None else Step(x.value, s[|s| - 1])
  }

  // ---------------------------------------------------------------------
  // Sorting
  // ---------------------------------------------------------------------

  ghost predicate Sorted(s: seq<Change>) {
    forall i, j | 0 <= i < j < |s| :: s[i].ordinal <= s[j].ordinal
  }

  ghost predicate StrictlySorted(s: seq<Change>) {
    forall i, j | 0 <= i < j < |s| :: s[i].ordinal < s[j].ordinal
  }

  /** s is one of the lists that sorting g by ordinal can give. */
  ghost predicate SortOf(g: seq<Change>, s: seq<Change>) {
    Sorted(s) && multiset(s) == multiset(g)
  }

  function Insert(s: seq<Change>, c: Change): seq<Change> {
    if s == [] || s[|s| - 1].ordinal <= c.ordinal then s + [c] else Insert(s[..|s| - 1], c) + [s[|s| - 1]]
  }

  /** One sort by ordinal, to speak of; the code's sort may order equal ordinals otherwise. */
  function ByOrdinal(g: seq<Change>): seq<Change> {
    if g == [] then [] else Insert(ByOrdinal(g[..|g| - 1]), g[|g| - 1])
  }

  lemma AppendSorted(s: seq<Change>, c: Change)
    requires Sorted(s) && forall x | x in s :: x.ordinal <= c.ordinal
    ensures Sorted(s + [c])
  {
    assert forall i | 0 <= i < |s| :: s[i] in s;
  }

  lemma SortedEnds(s: seq<Change>, x: Change)
    requires Sorted(s) && x in s
    ensures x.ordinal <= s[|s| - 1].ordinal
  {
  }

  lemma {:induction false} InsertSorts(s: seq<Change>, c: Change)
    requires Sorted(s)
    ensures Sorted(Insert(s, c)) && multiset(Insert(s, c)) == multiset(s) + multiset{c}
  {
    hide Sorted;
    if s == [] || s[|s| - 1].ordinal <= c.ordinal {
      forall x | x in s { SortedEnds(s, x); }
      AppendSorted(s, c);
    } else {
      var p, last := s[..|s| - 1], s[|s| - 1];
      SortedInit(s, |s| - 1);
      InsertSorts(p, c);
      assert s == p + [last];
      InsertedAtMost(s, c);
      AppendSorted(Insert(p, c), last);
    }
  }

  lemma InsertedAtMost(s: seq<Change>, c: Change)
    requires s != [] && Sorted(s) && c.ordinal < s[|s| - 1].ordinal
    requires multiset(Insert(s[..|s| - 1], c)) == multiset(s[..|s| - 1]) + multiset{c}
    ensures forall x | x in Insert(s[..|s| - 1], c) :: x.ordinal <= s[|s| - 1].ordinal
  {
    hide Insert;
    var p := s[..|s| - 1];
    forall x | x in Insert(p, c)
      ensures x.ordinal <= s[|s| - 1].ordinal
    {
      assert x in multiset(p) + multiset{c};
    }
  }

  lemma {:induction false} ByOrdinalSorts(g: seq<Change>)
    ensures SortOf(g, ByOrdinal(g)) && |ByOrdinal(g)| == |g|
  {
    if g == [] {
    } else {
      hide Sorted, Insert;
      var init, last := g[..|g| - 1], g[|g| - 1];
      ByOrdinalSorts(init);
      InsertSorts(ByOrdinal(init), last);
      assert g == init + [last];
    }
    SameLength(g, ByOrdinal(g));
  }

  lemma {:induction false} FoldNeedsStrictOrder(s: seq<Change>)
    requires s != [] && Fold(s).Some?
    ensures StrictlySorted(s)
    ensures Fold(s).value.ordinal == s[|s| - 1].ordinal && Fold(s).value.blockNum == s[|s| - 1].blockNum
  {
    if |s| == 1 {
    } else {
      FoldNeedsStrictOrder(s[..|s| - 1]);
    }
  }

  lemma MultisetInit<T>(s: seq<T>)
    requires s != []
    ensures multiset(s[..|s| - 1]) == multiset(s) - multiset{s[|s| - 1]} && s == s[..|s| - 1] + [s[|s| - 1]]
  {
    assert s == s[..|s| - 1] + [s[|s| - 1]];
  }

  lemma SameLength<T>(s: seq<T>, t: seq<T>)
    requires multiset(s) == multiset(t)
    ensures |s| == |t|
  {
    assert |s| == |multiset(s)| == |multiset(t)| == |t|;
  }

  lemma SortedInit(s: seq<Change>, m: nat)
    requires m <= |s|
    ensures StrictlySorted(s) ==> StrictlySorted(s[..m])
    ensures Sorted(s) ==> Sorted(s[..m])
  {
  }

  lemma {:induction false} StrictSortIsUnique(s: seq<Change>, t: seq<Change>)
    requires StrictlySorted(s) && Sorted(t) && multiset(s) == multiset(t)
    ensures s == t
  {
    hide StrictlySorted, Sorted;
    SameLength(s, t);
    if s == [] {
    } else {
      var m := |s| - 1;
      SameLast(s, t);
      MultisetInit(s);
      MultisetInit(t);
      SortedInit(s, m);
      SortedInit(t, m);
      StrictSortIsUnique(s[..m], t[..m]);
    }
  }

  lemma SameLast(s: seq<Change>, t: seq<Change>)
    requires StrictlySorted(s) && Sorted(t) && multiset(s) == multiset(t) && |s| == |t| > 0
    ensures s[|s| - 1] == t[|t| - 1]
  {
    var m := |s| - 1;
    assert s[m] in multiset(t) && t[m] in multiset(s);
    var i :| 0 <= i < |t| && t[i] == s[m];
    var j :| 0 <= j < |s| && s[j] == t[m];
  }

  /** Which sort is used makes no difference: equal ordinals fail in each. */
  lemma AnySortFoldsAlike(s: seq<Change>, t: seq<Change>)
    requires s != [] && t != [] && Sorted(s) && Sorted(t) && multiset(s) == multiset(t)
    ensures Fold(s) == Fold(t)
    ensures Fold(s).Some? ==> s == t
  {
    if Fold(s).Some? {
      FoldNeedsStrictOrder(s);
      StrictSortIsUnique(s, t);
    } else if Fold(t).Some? {
      FoldNeedsStrictOrder(t);
      StrictSortIsUnique(t, s);
    }
  }

  // ---------------------------------------------------------------------
  // Groups
  // ---------------------------------------------------------------------

  /** The changes to one row, in list order. */
  function Group(cs: seq<Change>, k: (string, string)): seq<Change> {
    if cs == [] then []
    else Group(cs[..|cs| - 1], k) + if cs[|cs| - 1].RowKey() == k then [cs[|cs| - 1]] else []
  }

  lemma {:induction false} GroupCounts(cs: seq<Change>, k: (string, string), c: Change)
    ensures multiset(Group(cs, k))[c] == if c.RowKey() == k then multiset(cs)[c] else 0
  {
    if cs == [] {
    } else {
      GroupCounts(cs[..|cs| - 1], k, c);
      assert cs == cs[..|cs| - 1] + [cs[|cs| - 1]];
    }
  }

  lemma {:induction false} GroupOrder(cs: seq<Change>, k: (string, string))
    ensures Sorted(cs) ==> Sorted(Group(cs, k))
    ensures forall c | c in Group(cs, k) :: c in cs && c.RowKey() == k
    ensures forall c | c in cs && c.RowKey() == k :: c in Group(cs, k)
  {
    if cs == [] {
    } else {
      var p, last := cs[..|cs| - 1], cs[|cs| - 1];
      GroupOrder(p, k);
      assert cs == p + [last];
      if Sorted(cs) && last.RowKey() == k {
        forall x | x in Group(p, k) ensures x.ordinal <= last.ordinal { SortedEnds(cs, x); }
        AppendSorted(Group(p, k), last);
      }
    }
  }

  lemma SameGroups(a: seq<Change>, b: seq<Change>, k: (string, string))
    requires multiset(a) == multiset(b)
    ensures multiset(Group(a, k)) == multiset(Group(b, k)) && |Group(a, k)| == |Group(b, k)|
  {
    forall c ensures multiset(Group(a, k))[c] == multiset(Group(b, k))[c] {
      GroupCounts(a, k, c);
      GroupCounts(b, k, c);
    }
    assert |Group(a, k)| == |multiset(Group(a, k))|;
    assert |Group(b, k)| == |multiset(Group(b, k))|;
  }

  // ---------------------------------------------------------------------
  // The net effect of a group
  // ---------------------------------------------------------------------

  function NetOf(g: seq<Change>): Option<Net>
    requires g != []
  {
    ByOrdinalSorts(g);
    Fold(ByOrdinal(g))
  }

  /** The group makes Squash fail: it has several changes and they do not fold. */
  predicate Fails(g: seq<Change>) {
    |g| > 1 && NetOf(g).None?
  }

  /** The group creates its row and deletes it again, so nothing is left of it. */
  predicate Vanishes(g: seq<Change>) {
    && |g| > 1 && NetOf(g).Some? && NetOf(g).value.op == Delete
    && (ByOrdinalSorts(g); ByOrdinal(g)[0].op == Create)
  }

  /** r stands for the whole group: one change is kept as it is, several are folded. */
  predicate StandsFor(g: seq<Change>, r: Change) {
    if |g| == 1 then r == g[0] else
    |g| > 1 && NetOf(g) == Some(Net(r.op, AsMap(r.fields), r.ordinal, r.blockNum))
  }

  /** rs is what a successful Squash of cs can give, in some order. */
  ghost predicate Squashed(cs: seq<Change>, rs: seq<Change>) {
    && (forall i, j | 0 <= i < j < |rs| :: rs[i].RowKey() != rs[j].RowKey())
    && (forall r | r in rs :: StandsFor(Group(cs, r.RowKey()), r) && !Vanishes(Group(cs, r.RowKey())))
    && (forall c | c in cs && !Vanishes(Group(cs, c.RowKey())) :: exists r :: r in rs && r.RowKey() == c.RowKey())
    && (forall c | c in cs :: !Fails(Group(cs, c.RowKey())))
  }

  /** Folding any sort of a group gives the net of the group. */
  lemma AnySortGivesNet(g: seq<Change>, s: seq<Change>)
    requires g != [] && SortOf(g, s)
    ensures s != [] && Fold(s) == NetOf(g)
    ensures Fold(s).Some? ==> s == ByOrdinal(g)
  {
    ByOrdinalSorts(g);
    assert |multiset(s)| == |s| && |multiset(g)| == |g|;
    AnySortFoldsAlike(s, ByOrdinal(g));
  }

  // ---------------------------------------------------------------------
  // Order independence
  // ---------------------------------------------------------------------

  ghost predicate SquashFails(cs: seq<Change>) {
    exists c | c in cs :: Fails(Group(cs, c.RowKey()))
  }

  /** A squashed change with its fields compared as a map. */
  datatype Canonical = Canonical(key: (string, string), op: Operation, fields: FieldMap, ordinal: nat, blockNum: nat)

  function Canon(r: Change): Canonical {
    Canonical(r.RowKey(), r.op, AsMap(r.fields), r.ordinal, r.blockNum)
  }

  lemma PermutedGroup(g: seq<Change>, h: seq<Change>)
    requires multiset(g) == multiset(h) && |g| == |h|
    ensures |g| == 1 ==> g == h
    ensures g != [] ==> NetOf(g) == NetOf(h)
    ensures Fails(g) == Fails(h) && Vanishes(g) == Vanishes(h)
  {
    if |g| == 1 {
      assert g[0] in multiset(h);
    }
    if g != [] {
      ByOrdinalSorts(h);
      AnySortGivesNet(g, ByOrdinal(h));
    }
  }

  /** Permuting the input changes neither success nor what the result can be. */
  lemma SquashOrderIndependent(a: seq<Change>, b: seq<Change>, rs: seq<Change>)
    requires multiset(a) == multiset(b)
    ensures SquashFails(a) <==> SquashFails(b)
    ensures Squashed(a, rs) <==> Squashed(b, rs)
  {
    hide Fails, Vanishes;
    assert forall c :: c in a <==> c in multiset(a);
    assert forall c :: c in b <==> c in multiset(b);
    forall k: (string, string)
      ensures Fails(Group(a, k)) == Fails(Group(b, k)) && Vanishes(Group(a, k)) == Vanishes(Group(b, k))
      ensures forall r :: StandsFor(Group(a, k), r) == StandsFor(Group(b, k), r)
    {
      SameGroups(a, b, k);
      PermutedGroup(Group(a, k), Group(b, k));
    }
  }

  lemma StandInsAgree(g: seq<Change>, r: Change, t: Change)
    requires StandsFor(g, r) && StandsFor(g, t) && r.RowKey() == t.RowKey()
    ensures Canon(r) == Canon(t)
  {
  }

  /** Any two results of the same changes, in any input order, hold the same
      changes with the same fields, one for each row. */
  lemma SquashIsDetermined(a: seq<Change>, b: seq<Change>, rs: seq<Change>, ts: seq<Change>)
    requires multiset(a) == multiset(b) && Squashed(a, rs) && Squashed(b, ts)
    ensures (set r | r in rs :: Canon(r)) == (set t | t in ts :: Canon(t))
  {
    hide Fails, Vanishes, StandsFor;
    SquashOrderIndependent(a, b, ts);
    CanonIncluded(a, rs, ts);
    CanonIncluded(a, ts, rs);
  }

  lemma CanonIncluded(cs: seq<Change>, rs: seq<Change>, ts: seq<Change>)
    requires Squashed(cs, rs) && Squashed(cs, ts)
    ensures forall r | r in rs :: exists t :: t in ts && Canon(t) == Canon(r)
  {
    hide Fails, Vanishes;
    forall r | r in rs
      ensures exists t :: t in ts && Canon(t) == Canon(r)
    {
      var g := Group(cs, r.RowKey());
      assert StandsFor(g, r);
      GroupOrder(cs, r.RowKey());
      assert g[0] in g && g[0] in cs && g[0].RowKey() == r.RowKey();
      var t :| t in ts && t.RowKey() == g[0].RowKey();
      StandInsAgree(g, r, t);
    }
  }

  // ---------------------------------------------------------------------
  // What changes do to a database
  // ---------------------------------------------------------------------

  type Row = map<string, string>

  type Database = map<(string, string), Row>

  function NewValues(m: FieldMap): Row {
    map n | n in m :: m[n].newValue
  }

  /** One change applied to its row; a CREATE replaces the row. */
  function ApplyToRow(row: Option<Row>, op: Operation, fields: FieldMap): Option<Row> {
    match op
    case Create => Some(NewValues(fields))
    case Update => if row.Some? then Some(row.value + NewValues(fields)) else None
    case Delete => None
    case Unset => row
  }

  /** The change makes sense on the row: it creates an absent one, or updates or deletes one that is there. */
  predicate FitsRow(row: Option<Row>, op: Operation) {
    match op
    case Create => row.None?
    case Update => row.Some?
    case Delete => row.Some?
    case Unset => false
  }

  function RowOf(db: Database, k: (string, string)): Option<Row> {
    if k in db then Some(db[k]) else None
  }

  function Apply(db: Database, c: Change): Database {
    var row := ApplyToRow(RowOf(db, c.RowKey()), c.op, AsMap(c.fields));
    if row.Some? then db[c.RowKey() := row.value] else db - {c.RowKey()}
  }

  function ApplyAll(db: Database, cs: seq<Change>): Database {
    if cs == [] then db else Apply(ApplyAll(db, cs[..|cs| - 1]), cs[|cs| - 1])
  }

  predicate Applicable(db: Database, cs: seq<Change>) {
    cs == [] ||
    (Applicable(db, cs[..|cs| - 1])
     && FitsRow(RowOf(ApplyAll(db, cs[..|cs| - 1]), cs[|cs| - 1].RowKey()), cs[|cs| - 1].op))
  }

  // The same for the changes of one row.

  function RowAfter(row: Option<Row>, s: seq<Change>): Option<Row> {
    if s == [] then row
    else ApplyToRow(RowAfter(row, s[..|s| - 1]), s[|s| - 1].op, AsMap(s[|s| - 1].fields))
  }

  predicate RowFits(row: Option<Row>, s: seq<Change>) {
    s == [] || (RowFits(row, s[..|s| - 1]) && FitsRow(RowAfter(row, s[..|s| - 1]), s[|s| - 1].op))
  }

  /** Rows do not interfere: each one sees only its own group. */
  lemma {:induction false} ApplyAllByRow(db: Database, cs: seq<Change>, k: (string, string))
    ensures RowOf(ApplyAll(db, cs), k) == RowAfter(RowOf(db, k), Group(cs, k))
    ensures Applicable(db, cs) ==> RowFits(RowOf(db, k), Group(cs, k))
  {
    if cs == [] {
    } else {
      var p, c := cs[..|cs| - 1], cs[|cs| - 1];
      ApplyAllByRow(db, p, k);
      if c.RowKey() == k {
        assert Group(cs, k)[..|Group(cs, k)| - 1] == Group(p, k);
      } else {
        assert Group(cs, k) == Group(p, k);
      }
    }
  }

  lemma NewValuesUpdate(m: FieldMap, name: string, f: Field)
    ensures NewValues(m[name := f]) == NewValues(m)[name := f.newValue]
  {
  }

  lemma UpdateOfSum(a: Row, b: Row, name: string, v: string)
    ensures (a + b)[name := v] == a + b[name := v]
  {
  }

  lemma {:induction false} MergedNewValues(m: FieldMap, fs: seq<Field>)
    requires MergeFields(m, fs).Some?
    ensures NewValues(MergeFields(m, fs).value) == NewValues(m) + NewValues(AsMap(fs))
  {
    if fs == [] {
    } else {
      var p, f := fs[..|fs| - 1], fs[|fs| - 1];
      MergedNewValues(m, p);
      var before := MergeFields(m, p).value;
      var g := if f.name !in before then f else Field(f.name, f.newValue, before[f.name].oldValue);
      assert MergeFields(m, fs).value == before[f.name := g];
      NewValuesUpdate(AsMap(p), f.name, f);
      NewValuesUpdate(before, f.name, g);
      UpdateOfSum(NewValues(m), NewValues(AsMap(p)), f.name, f.newValue);
    }
  }

  /** Folding preserves the effect on the row. */
  lemma {:induction false} FoldPreservesRow(row: Option<Row>, s: seq<Change>)
    requires s != [] && Fold(s).Some? && RowFits(row, s)
    ensures Fold(s).value.op != Unset
    ensures RowAfter(row, s) == ApplyToRow(row, Fold(s).value.op, Fold(s).value.fields)
    ensures Fold(s).value.op == Update ==> row.Some?
    ensures s[0].op == Create ==> row.None?
  {
    var p, n := s[..|s| - 1], s[|s| - 1];
    if |s| == 1 {
      assert RowAfter(row, p) == row;
    } else {
      FoldPreservesRow(row, p);
      StepPreservesRow(row, Fold(p).value, n);
    }
  }

  /** Applying the running change and then the next is applying the merged change. */
  lemma StepPreservesRow(row: Option<Row>, x: Net, n: Change)
    requires Step(x, n).Some? && x.op != Unset && (x.op == Update ==> row.Some?)
    ensures n.op == Update ==>
              ApplyToRow(ApplyToRow(row, x.op, x.fields), n.op, AsMap(n.fields))
              == ApplyToRow(row, x.op, Step(x, n).value.fields)
  {
    if n.op == Update {
      MergedNewValues(x.fields, n.fields);
      if x.op == Update {
        var merged := MergeFields(x.fields, n.fields).value;
        assert row.value + NewValues(x.fields) + NewValues(AsMap(n.fields)) == row.value + NewValues(merged);
      }
    }
  }

  /** Squash preserves meaning: from any database where the changes apply in
      ordinal order, the squashed changes, in any order, give the same database. */
  lemma SquashPreservesMeaning(db: Database, cs: seq<Change>, run: seq<Change>, rs: seq<Change>)
    requires SortOf(cs, run) && Applicable(db, run) && Squashed(cs, rs)
    ensures ApplyAll(db, rs) == ApplyAll(db, run)
  {
    hide Applicable, Squashed;
    forall k: (string, string)
      ensures RowOf(ApplyAll(db, rs), k) == RowOf(ApplyAll(db, run), k)
    {
      ApplyAllByRow(db, rs, k);
      ApplyAllByRow(db, run, k);
      GroupPreserved(RowOf(db, k), cs, run, rs, k);
    }
    assert forall k | k in ApplyAll(db, rs) || k in ApplyAll(db, run) ::
        RowOf(ApplyAll(db, rs), k) == RowOf(ApplyAll(db, run), k);
  }

  lemma {:induction false} NoChangesNoGroup(cs: seq<Change>, k: (string, string))
    requires forall i | 0 <= i < |cs| :: cs[i].RowKey() != k
    ensures Group(cs, k) == []
  {
    if cs == [] {
    } else {
      NoChangesNoGroup(cs[..|cs| - 1], k);
    }
  }

  lemma {:induction false} OneChangeGroup(rs: seq<Change>, r: Change)
    requires forall i, j | 0 <= i < j < |rs| :: rs[i].RowKey() != rs[j].RowKey()
    requires r in rs
    ensures Group(rs, r.RowKey()) == [r]
  {
    var p, last := rs[..|rs| - 1], rs[|rs| - 1];
    if last == r {
      NoChangesNoGroup(p, r.RowKey());
    } else {
      assert r in p;
      OneChangeGroup(p, r);
    }
  }

  lemma GroupPreserved(row: Option<Row>, cs: seq<Change>, run: seq<Change>, rs: seq<Change>, k: (string, string))
    requires SortOf(cs, run) && Squashed(cs, rs) && RowFits(row, Group(run, k))
    ensures RowAfter(row, Group(rs, k)) == RowAfter(row, Group(run, k))
  {
    hide Sorted, RowFits, Fails;
    var g, s := Group(cs, k), Group(run, k);
    SameGroups(cs, run, k);
    GroupOrder(run, k);
    GroupOrder(cs, k);
    GroupOrder(rs, k);
    if Group(rs, k) != [] {
      var r := Group(rs, k)[0];
      assert r in Group(rs, k);
      OneChangeGroup(rs, r);
      StandInPreserves(row, g, s, r);
    } else if g != [] {
      assert g[0] in g && Vanishes(g);
      AnySortGivesNet(g, s);
      FoldPreservesRow(row, s);
    }
  }

  lemma OnlyOne<T>(s: seq<T>, t: seq<T>)
    requires multiset(s) == multiset(t) && |s| == |t| == 1
    ensures s == t
  {
    assert s[0] in multiset(t);
  }

  lemma StandInPreserves(row: Option<Row>, g: seq<Change>, s: seq<Change>, r: Change)
    requires StandsFor(g, r) && SortOf(g, s) && |s| == |g| && RowFits(row, s)
    ensures RowAfter(row, [r]) == RowAfter(row, s)
  {
    AnySortGivesNet(g, s);
    assert [r][..0] == [];
    if |g| == 1 {
      OnlyOne(g, s);
      assert s == [r];
    } else {
      FoldPreservesRow(row, s);
    }
  }
}
