/** The squashing code: changes are merged in place, group by group. */
module DatabaseChanges {
  import opened Prelude
  import opened Squash

  class TableChange {
    var table: string
    var pk: string
    var blockNum: nat
    var ordinal: nat
    var op: Operation
    var fields: seq<Field>

    constructor (c: Change)
      ensures Val() == c
    {
      table, pk, blockNum, ordinal, op, fields := c.table, c.pk, c.blockNum, c.ordinal, c.op, c.fields;
    }

    function Val(): Change
      reads this
    {
      Change(table, pk, blockNum, ordinal, op, fields)
    }

    /** Merges the next change of the same row into this one; leaves it alone on an error. */
    method Merge(next: TableChange) returns (ok: bool)
      requires next != this
      modifies this
      ensures ok <==> old(table) == next.table && Step(Start(old(Val())), next.Val()).Some?
      ensures ok ==> Val().RowKey() == next.Val().RowKey() && Some(Start(Val())) == Step(Start(old(Val())), next.Val())
      ensures !ok ==> Val() == old(Val())
    {
      if table != next.table {
        return false;
      }
      if ordinal >= next.ordinal {
        return false;
      }
      match next.op {
        case Delete =>
          op := next.op;
          fields := next.fields;
        case Create =>
          if op != Delete {
            return false;
          }
          op := next.op;
          fields := next.fields;
        case Update =>
          var merged := UpdateFields(fields, next.fields);
          if merged.None? {
            return false;
          }
          fields := merged.value;
        case Unset =>
      }
      pk := next.pk;
      ordinal := next.ordinal;
      blockNum := next.blockNum;
      ok := true;
    }
  }

  lemma {:induction false} MergeFieldsPrefix(m: FieldMap, fs: seq<Field>, i: nat)
    requires i <= |fs| && MergeFields(m, fs[..i]).None?
    ensures MergeFields(m, fs).None?
    decreases |fs|
  {
    if i < |fs| {
      assert fs[..|fs| - 1][..i] == fs[..i];
      MergeFieldsPrefix(m, fs[..|fs| - 1], i);
    } else {
      assert fs[..i] == fs;
    }
  }

  lemma AsMapSnoc(fs: seq<Field>, i: nat)
    requires i < |fs|
    ensures AsMap(fs[..i + 1]) == AsMap(fs[..i])[fs[i].name := fs[i]]
  {
    assert fs[..i + 1][..i] == fs[..i];
  }

  lemma MergeFieldsSnoc(m: FieldMap, fs: seq<Field>, i: nat)
    requires i < |fs|
    ensures var before := MergeFields(m, fs[..i]);
            var f := fs[i];
            MergeFields(m, fs[..i + 1]) ==
            if before.None? then None
            else if f.name !in before.value then Some(before.value[f.name := f])
            else if f.oldValue != before.value[f.name].newValue then None
            else Some(before.value[f.name := Field(f.name, f.newValue, before.value[f.name].oldValue)])
  {
    assert fs[..i + 1][..i] == fs[..i];
  }

  /** The fields of a list by name. */
  method ByName(fields: seq<Field>) returns (m: FieldMap)
    ensures m == AsMap(fields) && forall n | n in m :: m[n].name == n
  {
    m := map[];
    for i := 0 to |fields|
      invariant m == AsMap(fields[..i])
      invariant forall n | n in m :: m[n].name == n
    {
      AsMapSnoc(fields, i);
      m := m[fields[i].name := fields[i]];
    }
    assert fields[..|fields|] == fields;
  }

  /** The UPDATE case of Merge: two passes into a map, and the map listed in any order. */
  method UpdateFields(fields: seq<Field>, next: seq<Field>) returns (merged: Option<seq<Field>>)
    ensures merged.None? <==> MergeFields(AsMap(fields), next).None?
    ensures merged.Some? ==> MergeFields(AsMap(fields), next) == Some(AsMap(merged.value))
  {
    var fieldValues := ByName(fields);
    for i := 0 to |next|
      invariant MergeFields(AsMap(fields), next[..i]) == Some(fieldValues)
      invariant forall n | n in fieldValues :: fieldValues[n].name == n
    {
      MergeFieldsSnoc(AsMap(fields), next, i);
      var newField := next[i];
      if newField.name !in fieldValues {
        fieldValues := fieldValues[newField.name := newField];
        continue;
      }
      var oldField := fieldValues[newField.name];
      if newField.oldValue != oldField.newValue {
        MergeFieldsPrefix(AsMap(fields), next, i + 1);
        return None;
      }
      fieldValues := fieldValues[newField.name := Field(newField.name, newField.newValue, oldField.oldValue)];
    }
    assert next[..|next|] == next;
    var list := ListFields(fieldValues);
    merged := Some(list);
  }

  method ListFields(m: FieldMap) returns (list: seq<Field>)
    requires forall n | n in m :: m[n].name == n
    ensures AsMap(list) == m
  {
    list := [];
    var todo := m.Keys;
    while todo != {}
      invariant todo <= m.Keys
      invariant AsMap(list) == m - todo
    {
      hide AsMap;
      var n :| n in todo;
      AppendField(list, m[n]);
      assert m - (todo - {n}) == (m - todo)[n := m[n]];
      todo := todo - {n};
      list := list + [m[n]];
    }
  }

  lemma AppendField(list: seq<Field>, f: Field)
    ensures AsMap(list + [f]) == AsMap(list)[f.name := f]
  {
    assert (list + [f])[..|list|] == list;
  }

  // ---------------------------------------------------------------------
  // One group
  // ---------------------------------------------------------------------

  function ValsOf(xs: seq<TableChange>): (vals: seq<Change>)
    reads xs
    ensures |vals| == |xs| && forall i | 0 <= i < |xs| :: vals[i] == xs[i].Val()
  {
    seq(|xs|, i requires 0 <= i < |xs| reads xs => xs[i].Val())
  }

  lemma ValsOfConcat(xs: seq<TableChange>, ys: seq<TableChange>)
    ensures ValsOf(xs + ys) == ValsOf(xs) + ValsOf(ys)
  {
  }

  lemma RemoveOne<T>(s: seq<T>, j: nat)
    requires j < |s|
    ensures multiset(s) == multiset(s[..j] + s[j + 1..]) + multiset{s[j]}
    ensures forall x | x in s[..j] + s[j + 1..] :: x in s
  {
    assert s == s[..j] + [s[j]] + s[j + 1..];
  }

  lemma RemoveAt(xs: seq<TableChange>, j: nat)
    requires j < |xs|
    ensures multiset(xs) == multiset(xs[..j] + xs[j + 1..]) + multiset{xs[j]}
    ensures multiset(ValsOf(xs)) == multiset(ValsOf(xs[..j] + xs[j + 1..])) + multiset{xs[j].Val()}
    ensures forall x | x in xs[..j] + xs[j + 1..] :: x in xs
  {
    RemoveOne(xs, j);
    RemoveOne(ValsOf(xs), j);
    ValsOfConcat(xs[..j], xs[j + 1..]);
    assert ValsOf(xs)[..j] == ValsOf(xs[..j]) && ValsOf(xs)[j + 1..] == ValsOf(xs[j + 1..]);
  }

  lemma AppendOne(xs: seq<TableChange>, x: TableChange)
    requires Sorted(ValsOf(xs)) && forall y | y in xs :: y.ordinal <= x.ordinal
    ensures Sorted(ValsOf(xs + [x])) && multiset(ValsOf(xs + [x])) == multiset(ValsOf(xs)) + multiset{x.Val()}
  {
    assert ValsOf(xs + [x]) == ValsOf(xs) + [x.Val()];
    assert forall i | 0 <= i < |xs| :: xs[i] in xs;
  }

  lemma CancelOne<T>(a: multiset<T>, b: multiset<T>, c: multiset<T>, d: multiset<T>, x: T)
    requires a == b && a == c + multiset{x} && b == d + multiset{x}
    ensures c == d
  {
    assert c == a - multiset{x} && d == b - multiset{x};
  }

  lemma {:induction false} SameVals(xs: seq<TableChange>, ys: seq<TableChange>)
    requires multiset(xs) == multiset(ys)
    ensures multiset(ValsOf(xs)) == multiset(ValsOf(ys))
  {
    hide ValsOf;
    if xs == [] {
      assert |multiset(ys)| == 0;
    } else {
      assert xs[0] in multiset(ys);
      var j :| 0 <= j < |ys| && ys[j] == xs[0];
      var xs', ys' := xs[..0] + xs[1..], ys[..j] + ys[j + 1..];
      RemoveAt(xs, 0);
      RemoveAt(ys, j);
      CancelOne(multiset(xs), multiset(ys), multiset(xs'), multiset(ys'), xs[0]);
      SameVals(xs', ys');
    }
  }

  predicate LeastAt(xs: seq<TableChange>, j: nat)
    reads xs
  {
    j < |xs| && forall i | 0 <= i < |xs| :: xs[j].ordinal <= xs[i].ordinal
  }

  lemma {:induction false} LeastExists(xs: seq<TableChange>) returns (j: nat)
    requires xs != []
    ensures LeastAt(xs, j)
  {
    j := 0;
    if |xs| <= 1 {
    } else {
      var k := LeastExists(xs[1..]);
      assert forall i | 0 < i < |xs| :: xs[i] == xs[1..][i - 1];
      if xs[1 + k].ordinal < xs[0].ordinal { j := 1 + k; }
    }
  }

  /** sorted is sorted and ends no later than rest begins. */
  ghost predicate SortedBelow(sorted: seq<TableChange>, rest: seq<TableChange>)
    reads sorted, rest
  {
    Sorted(ValsOf(sorted)) && forall y, z | y in sorted && z in rest :: y.ordinal <= z.ordinal
  }

  lemma MoveLeast(sorted: seq<TableChange>, rest: seq<TableChange>, j: nat)
    requires SortedBelow(sorted, rest) && LeastAt(rest, j)
    ensures SortedBelow(sorted + [rest[j]], rest[..j] + rest[j + 1..])
    ensures multiset(sorted + [rest[j]]) + multiset(rest[..j] + rest[j + 1..]) == multiset(sorted) + multiset(rest)
  {
    hide Sorted;
    RemoveAt(rest, j);
    AppendOne(sorted, rest[j]);
  }

  /** `sort.Slice` by ordinal: equal ordinals come out in any order. */
  method SortByOrdinal(group: seq<TableChange>) returns (sorted: seq<TableChange>)
    ensures multiset(sorted) == multiset(group)
    ensures SortOf(ValsOf(group), ValsOf(sorted))
  {
    sorted := [];
    var rest := group;
    while rest != []
      invariant multiset(sorted) + multiset(rest) == multiset(group)
      invariant SortedBelow(sorted, rest)
      decreases |rest|
    {
      ghost var k := LeastExists(rest);
      var j: nat :| LeastAt(rest, j);
      MoveLeast(sorted, rest, j);
      sorted, rest := sorted + [rest[j]], rest[..j] + rest[j + 1..];
    }
    SameVals(sorted, group);
  }

  lemma {:induction false} FoldPrefixFails(s: seq<Change>, i: nat)
    requires 0 < i <= |s| && Fold(s[..i]).None?
    ensures Fold(s).None?
    decreases |s|
  {
    if i < |s| {
      assert s[..|s| - 1][..i] == s[..i];
      FoldPrefixFails(s[..|s| - 1], i);
    } else {
      assert s[..i] == s;
    }
  }

  /** What merging a group leaves: a change that stands for it, or nothing. */
  ghost predicate Leaves(g: seq<Change>, kept: Option<Change>) {
    match kept
    case Some(r) => !Vanishes(g) && StandsFor(g, r)
    case None => Vanishes(g)
  }

  lemma FoldSnoc(s: seq<Change>, i: nat)
    requires 0 < i < |s|
    ensures Fold(s[..i + 1]) == if Fold(s[..i]).None? then None else Step(Fold(s[..i]).value, s[i])
  {
    assert s[..i + 1][..i] == s[..i];
  }

  /** No change is listed twice. */
  ghost predicate NoRepeats(xs: seq<TableChange>) {
    forall i, j | 0 <= i < j < |xs| :: xs[i] != xs[j]
  }

  lemma {:induction false} RepeatCount(xs: seq<TableChange>)
    ensures NoRepeats(xs) <==> forall x | x in xs :: multiset(xs)[x] == 1
  {
    if xs == [] {
    } else {
      var p, last := xs[..|xs| - 1], xs[|xs| - 1];
      RepeatCount(p);
      assert xs == p + [last];
      assert forall x :: multiset(xs)[x] == multiset(p)[x] + if x == last then 1 else 0;
      assert NoRepeats(xs) <==> NoRepeats(p) && last !in multiset(p);
      if forall x | x in xs :: multiset(xs)[x] == 1 {
        assert multiset(xs)[last] == 1;
        forall x | x in p ensures multiset(p)[x] == 1 { assert x in xs; }
      }
    }
  }

  lemma PermutationHasNoRepeats(xs: seq<TableChange>, ys: seq<TableChange>)
    requires NoRepeats(xs) && multiset(xs) == multiset(ys)
    ensures NoRepeats(ys)
  {
    RepeatCount(xs);
    RepeatCount(ys);
    assert forall y | y in ys :: y in multiset(ys) && y in xs;
  }

  /** x carries the fold of the first i changes. */
  predicate FoldedUpTo(vals: seq<Change>, i: nat, x: Change)
    requires 0 < i <= |vals|
  {
    Fold(vals[..i]) == Some(Start(x))
  }

  lemma FoldOneMore(vals: seq<Change>, i: nat, x: Change, y: Change, merged: bool)
    requires 0 < i < |vals| && FoldedUpTo(vals, i, x)
    requires merged <==> Step(Start(x), vals[i]).Some?
    requires merged ==> Some(Start(y)) == Step(Start(x), vals[i])
    ensures merged ==> FoldedUpTo(vals, i + 1, y)
    ensures !merged ==> Fold(vals).None?
  {
    hide Step, Start;
    FoldSnoc(vals, i);
    if !merged { FoldPrefixFails(vals, i + 1); }
  }

  /** The merging loop: folds the sorted changes into the first. */
  method FoldSorted(sorted: seq<TableChange>, k: (string, string)) returns (ok: bool)
    requires sorted != [] && NoRepeats(sorted) && forall i | 0 <= i < |sorted| :: sorted[i].Val().RowKey() == k
    modifies sorted
    ensures ok <==> Fold(old(ValsOf(sorted))).Some?
    ensures ok ==> Fold(old(ValsOf(sorted))) == Some(Start(sorted[0].Val())) && sorted[0].Val().RowKey() == k
  {
    ghost var vals := ValsOf(sorted);
    var current := sorted[0];
    assert vals[..1] == [vals[0]];
    for i := 1 to |sorted|
      invariant FoldedUpTo(vals, i, current.Val()) && current.table == k.0
      invariant forall j | i <= j < |sorted| :: sorted[j].Val() == vals[j]
      invariant current.Val().RowKey() == k
    {
      hide Step, Start, FoldedUpTo;
      ghost var before := current.Val();
      var merged := current.Merge(sorted[i]);
      FoldOneMore(vals, i, before, current.Val(), merged);
      if !merged {
        return false;
      }
    }
    assert vals[..|sorted|] == vals;
    ok := true;
  }

  /** Merges the changes of one row; the first of them after sorting becomes the net change. */
  method MergeGroup(group: seq<TableChange>, k: (string, string)) returns (ok: bool, kept: Option<TableChange>)
    requires group != [] && NoRepeats(group) && forall i | 0 <= i < |group| :: group[i].Val().RowKey() == k
    modifies group
    ensures ok <==> !Fails(old(ValsOf(group)))
    ensures ok && kept.Some? ==> kept.value in group && kept.value.Val().RowKey() == k
    ensures ok ==> Leaves(old(ValsOf(group)), if kept.Some? then Some(kept.value.Val()) else None)
  {
    if |group| == 1 {
      return true, Some(group[0]);
    }
    var sorted := SortByOrdinal(group);
    PermutationHasNoRepeats(group, sorted);
    AnySortGivesNet(ValsOf(group), ValsOf(sorted));
    assert forall i | 0 <= i < |sorted| :: sorted[i] in multiset(group);
    var createdHere := sorted[0].op == Create;
    ok := FoldSorted(sorted, k);
    if !ok || (createdHere && sorted[0].op == Delete) {
      kept := None;
    } else {
      kept := Some(sorted[0]);
    }
  }

  // ---------------------------------------------------------------------
  // All groups
  // ---------------------------------------------------------------------

  type Groups = map<(string, string), seq<TableChange>>

  /** g holds the first n changes of xs to row k, in list order. */
  ghost predicate IsGroup(g: seq<TableChange>, xs: seq<TableChange>, n: nat, k: (string, string))
    requires n <= |xs|
    reads g, xs
  {
    NoRepeats(g) && (forall x | x in g :: x in xs[..n]) && ValsOf(g) == Group(ValsOf(xs)[..n], k)
  }

  function GroupAt(groups: Groups, k: (string, string)): seq<TableChange> {
    if k in groups then groups[k] else []
  }

  ghost function Grouped(groups: Groups): set<TableChange> {
    set k, x | k in groups && x in groups[k] :: x
  }

  ghost predicate GroupsUpTo(groups: Groups, xs: seq<TableChange>, n: nat)
    requires n <= |xs|
    reads xs, Grouped(groups)
  {
    && (forall k | k in groups :: groups[k] != [])
    && forall k: (string, string) ::
         (forall x | x in GroupAt(groups, k) :: x in Grouped(groups)) && IsGroup(GroupAt(groups, k), xs, n, k)
  }

  /** Groups the changes by table and key. */
  method GroupByRow(xs: seq<TableChange>) returns (groups: Groups)
    requires NoRepeats(xs)
    ensures GroupsUpTo(groups, xs, |xs|)
  {
    groups := map[];
    for i := 0 to |xs|
      invariant GroupsUpTo(groups, xs, i)
    {
      hide GroupsUpTo;
      var k := xs[i].Val().RowKey();
      GroupOneMore(groups, xs, i);
      groups := groups[k := GroupAt(groups, k) + [xs[i]]];
    }
  }

  lemma ExtendGroup(g: seq<TableChange>, xs: seq<TableChange>, i: nat, k: (string, string))
    requires NoRepeats(xs) && i < |xs| && IsGroup(g, xs, i, k)
    ensures xs[i].Val().RowKey() != k ==> IsGroup(g, xs, i + 1, k)
    ensures xs[i].Val().RowKey() == k ==> IsGroup(g + [xs[i]], xs, i + 1, k)
  {
    var vals := ValsOf(xs);
    assert vals[..i + 1][..i] == vals[..i];
    assert xs[..i + 1] == xs[..i] + [xs[i]];
    assert xs[i] !in xs[..i];
    assert ValsOf(g + [xs[i]]) == ValsOf(g) + [vals[i]];
  }

  lemma GroupOneMore(groups: Groups, xs: seq<TableChange>, i: nat)
    requires NoRepeats(xs) && i < |xs| && GroupsUpTo(groups, xs, i)
    ensures var k := xs[i].Val().RowKey();
            GroupsUpTo(groups[k := GroupAt(groups, k) + [xs[i]]], xs, i + 1)
  {
    hide IsGroup;
    var k := xs[i].Val().RowKey();
    var more := groups[k := GroupAt(groups, k) + [xs[i]]];
    forall j: (string, string)
      ensures IsGroup(GroupAt(more, j), xs, i + 1, j)
    {
      ExtendGroup(GroupAt(groups, j), xs, i, j);
      assert GroupAt(more, j) == if j == k then GroupAt(groups, j) + [xs[i]] else GroupAt(groups, j);
    }
  }

  ghost predicate Apart(groups: Groups) {
    forall k, j | k in groups && j in groups && k != j :: forall x | x in groups[k] :: x !in groups[j]
  }

  lemma GroupsAreApart(groups: Groups, xs: seq<TableChange>, n: nat)
    requires n <= |xs| && GroupsUpTo(groups, xs, n)
    ensures Apart(groups)
    ensures forall k, x | k in groups && x in groups[k] :: x in xs && x.Val().RowKey() == k
  {
    forall k, x | k in groups && x in groups[k]
      ensures x in xs && x.Val().RowKey() == k
    {
      var g := GroupAt(groups, k);
      assert IsGroup(g, xs, n, k);
      var i :| 0 <= i < |g| && g[i] == x;
      GroupOrder(ValsOf(xs)[..n], k);
      assert ValsOf(g)[i] in Group(ValsOf(xs)[..n], k);
    }
    forall k, j, x | k in groups && j in groups && x in groups[k] && x in groups[j]
      ensures k == j
    {
      assert x.Val().RowKey() == k;
    }
  }

  /** A group that is still to be merged. */
  ghost predicate Unmerged(g: seq<TableChange>, cs: seq<Change>, k: (string, string))
    reads g
  {
    NoRepeats(g) && ValsOf(g) == Group(cs, k) && g != [] && forall i | 0 <= i < |g| :: g[i].Val().RowKey() == k
  }

  /** The result lists one change for each merged group that does not vanish. */
  ghost predicate MergedSoFar(result: seq<TableChange>, groups: Groups, cs: seq<Change>, done: set<(string, string)>)
    reads result
  {
    && (forall r | r in result :: var k := r.Val().RowKey();
          k in done && k in groups && r in groups[k] && StandsFor(Group(cs, k), r.Val()) && !Vanishes(Group(cs, k)))
    && (forall i, j | 0 <= i < j < |result| :: result[i].Val().RowKey() != result[j].Val().RowKey())
    && (forall k | k in done :: !Fails(Group(cs, k)))
    && (forall k | k in done && !Vanishes(Group(cs, k)) :: exists r :: r in result && r.Val().RowKey() == k)
  }

  lemma MergedOneMore(result: seq<TableChange>, groups: Groups, cs: seq<Change>, done: set<(string, string)>,
                      k: (string, string), kept: Option<TableChange>)
    requires MergedSoFar(result, groups, cs, done) && k in groups && k !in done && !Fails(Group(cs, k))
    requires kept.Some? ==> kept.value in groups[k] && kept.value.Val().RowKey() == k
    requires Leaves(Group(cs, k), if kept.Some? then Some(kept.value.Val()) else None)
    ensures MergedSoFar(if kept.Some? then result + [kept.value] else result, groups, cs, done + {k})
  {
    hide Fails, Vanishes, StandsFor, Group;
    if kept.Some? {
      var more := result + [kept.value];
      assert more[|result|] == kept.value && kept.value in more;
      assert forall r | r in result :: r in more;
    }
  }

  /** The groups partition the changes. */
  ghost predicate Partition(groups: Groups, xs: seq<TableChange>, cs: seq<Change>) {
    && Apart(groups)
    && (forall k, x | k in groups && x in groups[k] :: x in xs)
    && (forall k | k in groups :: Group(cs, k) != [])
    && (forall c | c in cs :: c.RowKey() in groups)
  }

  lemma BeginMerging(groups: Groups, xs: seq<TableChange>)
    requires GroupsUpTo(groups, xs, |xs|)
    ensures Partition(groups, xs, ValsOf(xs))
    ensures forall k | k in groups :: Unmerged(groups[k], ValsOf(xs), k)
  {
    GroupsAreApart(groups, xs, |xs|);
    var cs := ValsOf(xs);
    assert cs[..|xs|] == cs;
    forall k | k in groups
      ensures Unmerged(groups[k], cs, k) && Group(cs, k) != []
    {
      assert IsGroup(GroupAt(groups, k), xs, |xs|, k);
    }
    forall c | c in cs
      ensures c.RowKey() in groups
    {
      GroupOrder(cs, c.RowKey());
      assert IsGroup(GroupAt(groups, c.RowKey()), xs, |xs|, c.RowKey());
    }
  }

  lemma GroupApart(groups: Groups, j: (string, string), k: (string, string))
    requires Apart(groups) && j in groups && k in groups && j != k
    ensures forall x | x in groups[j] :: x !in groups[k]
  {
  }

  lemma MergedIsApart(result: seq<TableChange>, groups: Groups, cs: seq<Change>, done: set<(string, string)>,
                      k: (string, string))
    requires MergedSoFar(result, groups, cs, done) && Apart(groups) && k in groups && k !in done
    ensures forall r | r in result :: r !in groups[k]
  {
    hide Fails, Vanishes, StandsFor, Group;
  }

  lemma UnmergedIsReady(g: seq<TableChange>, cs: seq<Change>, k: (string, string))
    requires Unmerged(g, cs, k)
    ensures g != [] && NoRepeats(g) && ValsOf(g) == Group(cs, k)
    ensures forall i | 0 <= i < |g| :: g[i].Val().RowKey() == k
  {
  }

  /** Merging one group leaves the other groups and the result so far alone. */
  method MergeOneGroup(groups: Groups, k: (string, string), ghost result: seq<TableChange>, ghost cs: seq<Change>,
                       ghost done: set<(string, string)>) returns (merged: bool, kept: Option<TableChange>)
    requires Apart(groups) && k in groups && k !in done
    requires forall j | j in groups && j !in done :: Unmerged(groups[j], cs, j)
    requires MergedSoFar(result, groups, cs, done)
    modifies set x | x in groups[k]
    ensures forall j | j in groups && j !in done && j != k :: Unmerged(groups[j], cs, j)
    ensures MergedSoFar(result, groups, cs, done)
    ensures merged <==> !Fails(Group(cs, k))
    ensures merged && kept.Some? ==> kept.value in groups[k] && kept.value.Val().RowKey() == k
    ensures merged ==> Leaves(Group(cs, k), if kept.Some? then Some(kept.value.Val()) else None)
  {
    hide Fails, Vanishes, StandsFor, Group, Apart;
    MergedIsApart(result, groups, cs, done, k);
    UnmergedIsReady(groups[k], cs, k);
    forall j | j in groups && j != k { GroupApart(groups, j, k); }
    merged, kept := MergeGroup(groups[k], k);
  }

  lemma GroupFails(cs: seq<Change>, k: (string, string))
    requires Fails(Group(cs, k))
    ensures SquashFails(cs)
  {
    hide NetOf;
    GroupOrder(cs, k);
    var c := Group(cs, k)[0];
    assert c in cs && c.RowKey() == k;
  }

  lemma EndMerging(result: seq<TableChange>, groups: Groups, xs: seq<TableChange>, cs: seq<Change>)
    requires Partition(groups, xs, cs) && MergedSoFar(result, groups, cs, groups.Keys)
    ensures Squashed(cs, ValsOf(result)) && !SquashFails(cs)
    ensures forall r | r in result :: r in xs
  {
    hide Fails, Vanishes, StandsFor, Group, Apart;
    var rs := ValsOf(result);
    forall r | r in rs
      ensures StandsFor(Group(cs, r.RowKey()), r) && !Vanishes(Group(cs, r.RowKey()))
    {
      var i :| 0 <= i < |rs| && rs[i] == r;
      assert result[i] in result;
    }
    forall c | c in cs && !Vanishes(Group(cs, c.RowKey()))
      ensures exists r :: r in rs && r.RowKey() == c.RowKey()
    {
      var x: TableChange :| x in result && x.Val().RowKey() == c.RowKey();
      var i :| 0 <= i < |result| && result[i] == x;
      assert rs[i] in rs;
    }
  }

  /** Squashes: groups the changes by row and merges each group, in any order of the rows. */
  method MergeAll(xs: seq<TableChange>) returns (ok: bool, result: seq<TableChange>)
    requires NoRepeats(xs)
    modifies xs
    ensures ok <==> !SquashFails(old(ValsOf(xs)))
    ensures ok ==> Squashed(old(ValsOf(xs)), ValsOf(result)) && forall r | r in result :: r in xs
  {
    ghost var cs := ValsOf(xs);
    var groups := GroupByRow(xs);
    BeginMerging(groups, xs);
    result := [];
    var done := {};
    while done != groups.Keys
      invariant done <= groups.Keys
      invariant forall k | k in groups && k !in done :: Unmerged(groups[k], cs, k)
      invariant MergedSoFar(result, groups, cs, done)
      decreases groups.Keys - done
    {
      hide Unmerged, MergedSoFar, SquashFails, Squashed, Fails, Apart, Leaves;
      var k :| k in groups && k !in done;
      assert forall x | x in groups[k] :: x in xs;
      var merged, kept := MergeOneGroup(groups, k, result, cs, done);
      if !merged {
        GroupFails(cs, k);
        return false, [];
      }
      MergedOneMore(result, groups, cs, done, k, kept);
      if kept.Some? {
        result := result + [kept.value];
      }
      done := done + {k};
    }
    EndMerging(result, groups, xs, cs);
    ok := true;
  }

  class ChangeList {
    var tableChanges: seq<TableChange>

    constructor (changes: seq<TableChange>)
      ensures tableChanges == changes
    {
      tableChanges := changes;
    }

    /** Replaces the list by its squashed form; on an error the list stays, though
        some of its changes may already have been merged. */
    method Squash() returns (ok: bool)
      requires NoRepeats(tableChanges)
      modifies this, tableChanges
      ensures ok <==> !SquashFails(old(ValsOf(tableChanges)))
      ensures ok ==> Squashed(old(ValsOf(tableChanges)), ValsOf(tableChanges))
      ensures ok ==> forall r | r in tableChanges :: r in old(tableChanges)
      ensures !ok ==> tableChanges == old(tableChanges)
    {
      var merged, changes := MergeAll(tableChanges);
      if merged {
        tableChanges := changes;
      }
      ok := merged;
    }
  }
}
