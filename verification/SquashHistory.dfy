/**
 When a sorted group of changes folds, and to what, said without folding:
 by the positions of its CREATEs and DELETEs and the history of each field.
 */
module SquashHistory {
  import opened Prelude
  import opened Squash

  /** The last CREATE or DELETE at or before position i, or the first change. */
  function Base(s: seq<Change>, i: nat): nat
    requires i < |s|
  {
    if i == 0 || s[i].op == Create || s[i].op == Delete then i else Base(s, i - 1)
  }

  function RunningOp(s: seq<Change>, i: nat): Operation
    requires i < |s|
  {
    BaseBound(s, i);
    s[Base(s, i)].op
  }

  lemma BaseBound(s: seq<Change>, i: nat)
    requires i < |s|
    ensures Base(s, i) <= i
  {
  }

  /** The fields of the list with this name, in order. */
  function Named(fs: seq<Field>, f: string): seq<Field> {
    if fs == [] then []
    else Named(fs[..|fs| - 1], f) + if fs[|fs| - 1].name == f then [fs[|fs| - 1]] else []
  }

  /** The history of a field up to position i, since the last CREATE or DELETE. */
  function Occurrences(s: seq<Change>, i: nat, f: string): seq<Field>
    requires i < |s|
  {
    if Base(s, i) == i then
      if f in AsMap(s[i].fields) then [AsMap(s[i].fields)[f]] else []
    else
      Occurrences(s, i - 1, f) + if s[i].op == Update then Named(s[i].fields, f) else []
  }

  /** Each occurrence starts from the value the one before it left. */
  ghost predicate Linked(occ: seq<Field>) {
    forall i, j | 0 <= i < j < |occ| && j == i + 1 :: occ[j].oldValue == occ[i].newValue
  }

  ghost predicate LinkedAt(s: seq<Change>, i: nat, f: string)
    requires i < |s|
  {
    Linked(Occurrences(s, i, f))
  }

  ghost predicate AllLinked(s: seq<Change>, i: nat)
    requires i < |s|
  {
    forall f :: LinkedAt(s, i, f)
  }

  /** The change a history amounts to: from its first old value to its last new value. */
  predicate Amounts(occ: seq<Field>, m: FieldMap, f: string) {
    if occ == [] then f !in m
    else f in m && m[f] == Field(f, occ[|occ| - 1].newValue, occ[0].oldValue)
  }

  // ---------------------------------------------------------------------
  // Merging one update
  // ---------------------------------------------------------------------

  lemma LinkedAppend(occ: seq<Field>, x: Field)
    ensures Linked(occ + [x]) <==> Linked(occ) && (occ != [] ==> x.oldValue == occ[|occ| - 1].newValue)
  {
    var both := occ + [x];
    assert both[|occ|] == x && forall j | 0 <= j < |occ| :: both[j] == occ[j];
    if Linked(both) && occ != [] {
      assert both[|occ|].oldValue == both[|occ| - 1].newValue;
    }
  }

  lemma NamedLast(fs: seq<Field>, f: string, occ: seq<Field>)
    requires fs != []
    ensures var (p, x) := (fs[..|fs| - 1], fs[|fs| - 1]);
            occ + Named(fs, f) == if x.name == f then occ + Named(p, f) + [x] else occ + Named(p, f)
  {
    assert Named(fs[..|fs| - 1], f) + [] == Named(fs[..|fs| - 1], f);
  }

  /** One more field of a merge, and what it does to the amounts. */
  lemma MergeOneField(before: FieldMap, x: Field, occ: seq<Field>, f: string)
    requires Amounts(occ, before, f) && Linked(occ)
    requires x.name !in before || x.oldValue == before[x.name].newValue
    ensures var after := if x.name !in before then before[x.name := x]
                         else before[x.name := Field(x.name, x.newValue, before[x.name].oldValue)];
            var occ' := if x.name == f then occ + [x] else occ;
            Amounts(occ', after, f) && Linked(occ')
  {
    LinkedAppend(occ, x);
  }

  lemma {:induction false} MergedField(m: FieldMap, fs: seq<Field>, f: string, occ: seq<Field>)
    requires MergeFields(m, fs).Some? && Amounts(occ, m, f) && Linked(occ)
    ensures Linked(occ + Named(fs, f)) && Amounts(occ + Named(fs, f), MergeFields(m, fs).value, f)
  {
    if fs == [] {
      assert occ + [] == occ;
    } else {
      var p, x := fs[..|fs| - 1], fs[|fs| - 1];
      MergedField(m, p, f, occ);
      hide Linked, Amounts, Named;
      MergeOneField(MergeFields(m, p).value, x, occ + Named(p, f), f);
      NamedLast(fs, f, occ);
    }
  }

  lemma LinkedPrefix(a: seq<Field>, b: seq<Field>)
    requires Linked(a + b)
    ensures Linked(a)
  {
    assert forall j | 0 <= j < |a| :: (a + b)[j] == a[j];
  }

  /** A failed merge shows in the history of some field. */
  lemma {:induction false} MergeMismatch(m: FieldMap, fs: seq<Field>) returns (f: string)
    requires MergeFields(m, fs).None?
    ensures forall occ | Amounts(occ, m, f) && Linked(occ) :: !Linked(occ + Named(fs, f))
  {
    var p, x := fs[..|fs| - 1], fs[|fs| - 1];
    if MergeFields(m, p).None? {
      f := MergeMismatch(m, p);
      forall occ | Amounts(occ, m, f) && Linked(occ)
        ensures !Linked(occ + Named(fs, f))
      {
        if Linked(occ + Named(fs, f)) {
          var tail := if x.name == f then [x] else [];
          assert occ + Named(fs, f) == (occ + Named(p, f)) + tail;
          LinkedPrefix(occ + Named(p, f), tail);
        }
      }
    } else {
      f := x.name;
      forall occ | Amounts(occ, m, f) && Linked(occ)
        ensures !Linked(occ + Named(fs, f))
      {
        MergedField(m, p, f, occ);
        assert occ + Named(fs, f) == (occ + Named(p, f)) + [x];
        LinkedAppend(occ + Named(p, f), x);
      }
    }
  }

  // ---------------------------------------------------------------------
  // The characterisation
  // ---------------------------------------------------------------------

  /** A CREATE comes only while the running operation is DELETE. */
  predicate CreateFits(s: seq<Change>, i: nat)
    requires 0 < i < |s|
  {
    s[i].op == Create ==> RunningOp(s, i - 1) == Delete
  }

  /** Ordinals grow, each CREATE follows a DELETE, and every field history is linked. */
  ghost predicate Sound(s: seq<Change>) {
    && StrictlySorted(s)
    && (forall i | 0 < i < |s| :: CreateFits(s, i))
    && (forall i | 0 <= i < |s| :: AllLinked(s, i))
  }

  lemma {:induction false} PrefixHistory(s: seq<Change>, m: nat, i: nat, f: string)
    requires i < m <= |s|
    ensures Base(s[..m], i) == Base(s, i) <= i
    ensures RunningOp(s[..m], i) == RunningOp(s, i)
    ensures Occurrences(s[..m], i, f) == Occurrences(s, i, f)
    ensures LinkedAt(s[..m], i, f) == LinkedAt(s, i, f)
  {
    if i == 0 {
    } else {
      PrefixHistory(s, m, i - 1, f);
    }
  }

  lemma PrefixPosition(s: seq<Change>, m: nat, i: nat)
    requires i < m <= |s|
    ensures AllLinked(s[..m], i) == AllLinked(s, i)
    ensures RunningOp(s[..m], i) == RunningOp(s, i)
    ensures 0 < i ==> CreateFits(s[..m], i) == CreateFits(s, i)
  {
    hide LinkedAt;
    PrefixHistory(s, m, i, "");
    if 0 < i { PrefixHistory(s, m, i - 1, ""); }
    forall f: string ensures LinkedAt(s[..m], i, f) == LinkedAt(s, i, f) { PrefixHistory(s, m, i, f); }
  }

  lemma StrictlySortedPrefix(s: seq<Change>)
    requires |s| > 1
    ensures StrictlySorted(s) <==> StrictlySorted(s[..|s| - 1]) && s[|s| - 2].ordinal < s[|s| - 1].ordinal
  {
    var p := s[..|s| - 1];
    assert p[|s| - 2] == s[|s| - 2];
    if StrictlySorted(p) && s[|s| - 2].ordinal < s[|s| - 1].ordinal {
      assert forall i | 0 <= i < |p| :: p[i] == s[i] && (i < |s| - 2 ==> p[i].ordinal < p[|s| - 2].ordinal);
    }
  }

  lemma SoundPrefix(s: seq<Change>, m: nat)
    requires |s| > 1 && m == |s| - 1
    ensures Sound(s) <==> Sound(s[..m]) && s[m - 1].ordinal < s[m].ordinal && CreateFits(s, m) && AllLinked(s, m)
  {
    hide AllLinked, CreateFits, StrictlySorted;
    StrictlySortedPrefix(s);
    forall i: nat | i < m
      ensures AllLinked(s[..m], i) == AllLinked(s, i)
      ensures 0 < i ==> CreateFits(s[..m], i) == CreateFits(s, i)
    {
      PrefixPosition(s, m, i);
    }
  }

  lemma {:induction false} AsMapNames(fs: seq<Field>)
    ensures forall n | n in AsMap(fs) :: AsMap(fs)[n].name == n
  {
    if fs == [] {
    } else {
      AsMapNames(fs[..|fs| - 1]);
    }
  }

  predicate TellsField(s: seq<Change>, i: nat, x: Net, f: string)
    requires i < |s|
  {
    Amounts(Occurrences(s, i, f), x.fields, f)
  }

  /** The running change at position i, as its history tells it. */
  ghost predicate Tells(s: seq<Change>, i: nat, x: Net)
    requires i < |s|
  {
    x.op == RunningOp(s, i) && forall f :: TellsField(s, i, x, f)
  }

  lemma StartTells(s: seq<Change>, i: nat)
    requires i < |s| && Base(s, i) == i
    ensures Tells(s, i, Start(s[i])) && AllLinked(s, i)
  {
    AsMapNames(s[i].fields);
  }

  lemma UpdateTells(s: seq<Change>, i: nat, x: Net, next: Net)
    requires 0 < i < |s| && s[i].op == Update && Tells(s, i - 1, x) && AllLinked(s, i - 1)
    requires next.op == x.op && MergeFields(x.fields, s[i].fields) == Some(next.fields)
    ensures Tells(s, i, next) && AllLinked(s, i)
  {
    BaseBound(s, i - 1);
    forall f: string
      ensures TellsField(s, i, next, f) && LinkedAt(s, i, f)
    {
      assert TellsField(s, i - 1, x, f) && LinkedAt(s, i - 1, f);
      MergedField(x.fields, s[i].fields, f, Occurrences(s, i - 1, f));
    }
  }

  lemma UpdateMismatch(s: seq<Change>, i: nat, x: Net)
    requires 0 < i < |s| && s[i].op == Update && Tells(s, i - 1, x) && AllLinked(s, i - 1)
    requires MergeFields(x.fields, s[i].fields).None?
    ensures !AllLinked(s, i)
  {
    BaseBound(s, i - 1);
    var f := MergeMismatch(x.fields, s[i].fields);
    assert TellsField(s, i - 1, x, f) && LinkedAt(s, i - 1, f);
    assert !LinkedAt(s, i, f);
  }

  lemma UnsetTells(s: seq<Change>, i: nat, x: Net, next: Net)
    requires 0 < i < |s| && s[i].op == Unset && Tells(s, i - 1, x) && AllLinked(s, i - 1)
    requires next.op == x.op && next.fields == x.fields
    ensures Tells(s, i, next) && AllLinked(s, i)
  {
    BaseBound(s, i - 1);
    forall f: string
      ensures TellsField(s, i, next, f) && LinkedAt(s, i, f)
    {
      assert TellsField(s, i - 1, x, f) && LinkedAt(s, i - 1, f);
      assert Occurrences(s, i, f) == Occurrences(s, i - 1, f);
    }
  }

  lemma StepTells(s: seq<Change>, i: nat, x: Net)
    requires 0 < i < |s| && Tells(s, i - 1, x) && AllLinked(s, i - 1)
    ensures Step(x, s[i]).Some? <==> x.ordinal < s[i].ordinal && CreateFits(s, i) && AllLinked(s, i)
    ensures Step(x, s[i]).Some? ==> Tells(s, i, Step(x, s[i]).value)
  {
    hide AllLinked;
    match s[i].op
    case Create => StartTells(s, i);
    case Delete => StartTells(s, i);
    case Unset => UnsetTells(s, i, x, Net(x.op, x.fields, s[i].ordinal, s[i].blockNum));
    case Update =>
      var fields := MergeFields(x.fields, s[i].fields);
      if fields.Some? {
        UpdateTells(s, i, x, Net(x.op, fields.value, s[i].ordinal, s[i].blockNum));
      } else {
        UpdateMismatch(s, i, x);
      }
  }

  lemma TellsPrefix(s: seq<Change>, m: nat, i: nat, x: Net)
    requires i < m <= |s| && Tells(s[..m], i, x)
    ensures Tells(s, i, x)
  {
    forall f: string
      ensures TellsField(s, i, x, f)
    {
      assert TellsField(s[..m], i, x, f);
      PrefixHistory(s, m, i, f);
    }
    PrefixHistory(s, m, i, "");
  }

  /** A sorted group folds exactly when its history is sound, and then the net
      change telescopes: each field goes from its first old value since the last
      CREATE or DELETE to its last new value. */
  lemma {:induction false} FoldIffSound(s: seq<Change>)
    requires s != []
    ensures Fold(s).Some? <==> Sound(s)
    ensures Fold(s).Some? ==> Tells(s, |s| - 1, Fold(s).value)
  {
    if |s| == 1 {
      StartTells(s, 0);
    } else {
      hide Tells, AllLinked, CreateFits, Sound, Step;
      var m := |s| - 1;
      FoldIffSound(s[..m]);
      SoundPrefix(s, m);
      if Fold(s[..m]).Some? {
        FoldNeedsStrictOrder(s[..m]);
        SoundAtEnd(s[..m]);
        PrefixPosition(s, m, m - 1);
        TellsPrefix(s, m, m - 1, Fold(s[..m]).value);
        StepTells(s, m, Fold(s[..m]).value);
      }
    }
  }

  lemma SoundAtEnd(s: seq<Change>)
    requires s != [] && Sound(s)
    ensures AllLinked(s, |s| - 1)
  {
  }

  /** Squash fails exactly when some row has several changes and no sort of them is sound. */
  lemma SquashFailsIff(cs: seq<Change>)
    ensures SquashFails(cs) <==>
            exists c | c in cs :: |Group(cs, c.RowKey())| > 1 && !Sound(ByOrdinal(Group(cs, c.RowKey())))
  {
    forall c | c in cs
      ensures Fails(Group(cs, c.RowKey())) <==> |Group(cs, c.RowKey())| > 1 && !Sound(ByOrdinal(Group(cs, c.RowKey())))
    {
      var g := Group(cs, c.RowKey());
      if g != [] {
        ByOrdinalSorts(g);
        FoldIffSound(ByOrdinal(g));
      }
    }
  }

  /** A repeated ordinal within a row is fatal whatever the sort makes of it. */
  lemma RepeatedOrdinalFails(g: seq<Change>, i: nat, j: nat)
    requires i < j < |g| && g[i].ordinal == g[j].ordinal
    ensures Fails(g)
  {
    if NetOf(g).Some? {
      var s := ByOrdinal(g);
      ByOrdinalSorts(g);
      FoldNeedsStrictOrder(s);
      TwoPlaces(g, s, i, j);
      assert false;
    }
  }

  /** Two changes of one row and one ordinal make the squash of their list fail. */
  lemma ClashInList(cs: seq<Change>, i: nat, j: nat)
    requires i < j < |cs| && cs[i].RowKey() == cs[j].RowKey() && cs[i].ordinal == cs[j].ordinal
    ensures SquashFails(cs)
  {
    var k := cs[i].RowKey();
    var p, q := PlacesInGroup(cs, k, i, j);
    RepeatedOrdinalFails(Group(cs, k), p, q);
    assert cs[i] in cs;
  }

  lemma {:induction false} PlacesInGroup(cs: seq<Change>, k: (string, string), i: nat, j: nat) returns (p: nat, q: nat)
    requires i < j < |cs| && cs[i].RowKey() == k && cs[j].RowKey() == k
    ensures p < q < |Group(cs, k)| && Group(cs, k)[p] == cs[i] && Group(cs, k)[q] == cs[j]
  {
    var m := |cs| - 1;
    if j == m {
      p := PlaceInGroup(cs[..m], k, i);
      q := |Group(cs[..m], k)|;
    } else {
      p, q := PlacesInGroup(cs[..m], k, i, j);
    }
  }

  lemma {:induction false} PlaceInGroup(cs: seq<Change>, k: (string, string), i: nat) returns (p: nat)
    requires i < |cs| && cs[i].RowKey() == k
    ensures p < |Group(cs, k)| && Group(cs, k)[p] == cs[i]
  {
    var m := |cs| - 1;
    if i == m {
      p := |Group(cs[..m], k)|;
    } else {
      p := PlaceInGroup(cs[..m], k, i);
    }
  }

  lemma TwoPlaces(g: seq<Change>, s: seq<Change>, i: nat, j: nat)
    requires i < j < |g| && multiset(g) == multiset(s) && g[i].ordinal == g[j].ordinal
    ensures !StrictlySorted(s)
  {
    hide StrictlySorted;
    if g[i] == g[j] {
      TwiceCounts(g, i, j);
      var p, q := TwicePlaced(s, g[i]);
      EqualOrdinals(s, p, q);
    } else {
      assert g[i] in multiset(s) && g[j] in multiset(s);
      var p :| 0 <= p < |s| && s[p] == g[i];
      var q :| 0 <= q < |s| && s[q] == g[j];
      EqualOrdinals(s, p, q);
    }
  }

  lemma EqualOrdinals(s: seq<Change>, p: nat, q: nat)
    requires p < |s| && q < |s| && p != q && s[p].ordinal == s[q].ordinal
    ensures !StrictlySorted(s)
  {
  }

  lemma TwiceCounts<T>(g: seq<T>, i: nat, j: nat)
    requires i < j < |g| && g[i] == g[j]
    ensures multiset(g)[g[i]] >= 2
  {
    assert g == g[..j] + g[j..];
    assert g[i] in g[..j] && g[j] in g[j..];
    assert multiset(g[..j])[g[i]] >= 1 && multiset(g[j..])[g[i]] >= 1 by {
      assert g[..j][i] == g[i] && g[j..][0] == g[j];
    }
  }

  lemma TwicePlaced<T>(s: seq<T>, x: T) returns (p: nat, q: nat)
    requires multiset(s)[x] >= 2
    ensures p < |s| && q < |s| && p != q && s[p] == x && s[q] == x
  {
    assert x in multiset(s);
    p :| 0 <= p < |s| && s[p] == x;
    var rest := s[..p] + s[p + 1..];
    assert s == s[..p] + [s[p]] + s[p + 1..];
    assert multiset(rest)[x] >= 1;
    assert x in rest;
    var r :| 0 <= r < |rest| && rest[r] == x;
    q := if r < p then r else r + 1;
  }
}
