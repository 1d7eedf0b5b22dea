/** Squashing a row's squashed change again, together with later changes to the row. */
module Resquash {
  import opened Prelude
  import opened Squash

  /** Folding goes on from the change that stands for the part folded before. */
  lemma {:induction false} FoldResumes(a: seq<Change>, b: seq<Change>, r: Change)
    requires a != [] && Fold(a) == Some(Start(r))
    ensures Fold(a + b) == Fold([r] + b)
  {
    if b == [] {
      assert a + b == a && [r] + b == [r];
    } else {
      var m := |b| - 1;
      assert (a + b)[..|a| + m] == a + b[..m] && ([r] + b)[..1 + m] == [r] + b[..m];
      FoldResumes(a, b[..m], r);
    }
  }

  lemma SortedNet(s: seq<Change>)
    requires s != [] && StrictlySorted(s)
    ensures NetOf(s) == Fold(s) && ByOrdinal(s) == s
  {
    assert SortOf(s, s);
    AnySortGivesNet(s, s);
    ByOrdinalSorts(s);
    StrictSortIsUnique(s, ByOrdinal(s));
  }

  lemma SortedReplaced(a: seq<Change>, b: seq<Change>, r: Change)
    requires StrictlySorted(a + b) && a != [] && r.ordinal == a[|a| - 1].ordinal
    ensures StrictlySorted([r] + b)
  {
    var s, w := [r] + b, a + b;
    forall i, j | 0 <= i < j < |s|
      ensures s[i].ordinal < s[j].ordinal
    {
      var p, q := |a| - 1 + i, |a| - 1 + j;
      assert w[p].ordinal < w[q].ordinal;
      assert s[j] == w[q] && s[i].ordinal == w[p].ordinal;
    }
  }

  /** The stand-in of a sorted group takes the group's place in the order. */
  lemma StandInSorted(a: seq<Change>, b: seq<Change>, r: Change)
    requires StrictlySorted(a + b) && |a| > 1 && StandsFor(a, r)
    ensures StrictlySorted(a) && StrictlySorted([r] + b) && Fold(a) == Some(Start(r))
  {
    hide StrictlySorted;
    SortedInit(a + b, |a|);
    assert (a + b)[..|a|] == a;
    SortedNet(a);
    FoldNeedsStrictOrder(a);
    SortedReplaced(a, b, r);
  }

  /** The group as a whole replaces its row: it started otherwise than with a CREATE
      but left one behind, and the later changes delete the row. */
  predicate LosesDelete(a: seq<Change>, r: Change, b: seq<Change>)
    requires a != []
  {
    a[0].op != Create && r.op == Create && NetOf(a + b).Some? && NetOf(a + b).value.op == Delete
  }

  /** Squashing the stand-in r of a with the later changes b fails as squashing all of
      a and b does and has the same net. It also keeps or drops the row's change as the
      whole does, except exactly when a replaced the row and b deletes it: then the
      DELETE is lost. */
  lemma ResquashIff(a: seq<Change>, b: seq<Change>, r: Change)
    requires StrictlySorted(a + b) && |a| > 1 && StandsFor(a, r) && !Vanishes(a)
    ensures NetOf(a + b) == NetOf([r] + b)
    ensures (Vanishes(a + b) <==> Vanishes([r] + b)) <==> !LosesDelete(a, r, b)
    ensures LosesDelete(a, r, b) ==> Vanishes([r] + b) && !Vanishes(a + b)
  {
    StandInSorted(a, b, r);
    FoldResumes(a, b, r);
    SortedNet(a);
    SortedNet(a + b);
    SortedNet([r] + b);
    assert (a + b)[0] == a[0] && ([r] + b)[0] == r;
    if b == [] {
      assert a + b == a;
    }
    if a[0].op == Create {
      CreatedStays(a);
    }
  }

  /** What starts with a CREATE folds to a CREATE or a DELETE. */
  lemma {:induction false} CreatedStays(a: seq<Change>)
    requires a != [] && a[0].op == Create && Fold(a).Some?
    ensures Fold(a).value.op == Create || Fold(a).value.op == Delete
  {
    if |a| == 1 {
    } else {
      CreatedStays(a[..|a| - 1]);
    }
  }

  /** UPDATE, DELETE, CREATE squashes to CREATE; squashed again with a DELETE nothing
      is left, where squashing all four keeps the DELETE. */
  lemma ResquashLosesDelete(a: seq<Change>, r: Change, d: Change)
    requires a == [Change("pair", "a", 7, 1, Update, []), Change("pair", "a", 7, 2, Delete, []), r]
    requires r == Change("pair", "a", 7, 3, Create, []) && d == Change("pair", "a", 7, 4, Delete, [])
    ensures StandsFor(a, r) && !Vanishes(a)
    ensures Vanishes([r] + [d]) && !Vanishes(a + [d]) && StandsFor(a + [d], d)
  {
    assert a[..2][..1] == [a[0]] && a[..2] == [a[0], a[1]];
    assert StrictlySorted(a + [d]);
    SortedNet(a);
    SortedNet(a + [d]);
    assert (a + [d])[..3] == a;
    assert Fold(a[..2]) == Step(Start(a[0]), a[1]) == Some(Start(a[1]));
    assert Fold(a) == Step(Start(a[1]), r) == Some(Start(r));
    ResquashIff(a, [d], r);
  }
}
