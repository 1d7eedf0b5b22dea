/** Joining a block's store deltas and events into one list by ordinal, and the changes made of it. */
module DeltaMerges {
  import opened Prelude
  import opened BlockRanges
  import opened Routing
  import opened Totals
  import Sq = Squash
  import H = SquashHistory

  /** The constructors are in the order in which the sources are joined. */
  datatype Item =
    | PairDelta(delta: Delta)
    | PcsTokenDelta(delta: Delta)
    | TotalDelta(delta: Delta)
    | VolumeDelta(delta: Delta)
    | ReserveDelta(delta: Delta)
    | EventItem(event: Event)
  {
    function Ordinal(): nat {
      if EventItem? then event.logOrdinal else delta.ordinal
    }

    function Source(): nat {
      match this
      case PairDelta(_) => 0
      case PcsTokenDelta(_) => 1
      case TotalDelta(_) => 2
      case VolumeDelta(_) => 3
      case ReserveDelta(_) => 4
      case EventItem(_) => 5
    }
  }

  /** What a block gives to merge. */
  datatype Sources = Sources(
    pairs: seq<Delta>, tokens: seq<Delta>, totals: seq<Delta>, volumes: seq<Delta>, reserves: seq<Delta>,
      events: seq<Event>)

  function MapAll<T>(ts: seq<T>, wrap: T -> Item): seq<Item> {
    seq(|ts|, i requires 0 <= i < |ts| => wrap(ts[i]))
  }

  function OfPair(d: Delta): Item { PairDelta(d) }

  function OfToken(d: Delta): Item { PcsTokenDelta(d) }

  function OfTotal(d: Delta): Item { TotalDelta(d) }

  function OfVolume(d: Delta): Item { VolumeDelta(d) }

  function OfReserve(d: Delta): Item { ReserveDelta(d) }

  function OfEvent(e: Event): Item { EventItem(e) }

  /** All items, one source after the other. */
  function Joined(s: Sources): seq<Item> {
    MapAll(s.pairs, OfPair) + MapAll(s.tokens, OfToken) + MapAll(s.totals, OfTotal)
    + MapAll(s.volumes, OfVolume) + MapAll(s.reserves, OfReserve) + MapAll(s.events, OfEvent)
  }

  // ---------------------------------------------------------------------
  // Stable sorting
  // ---------------------------------------------------------------------

  ghost predicate NonDecreasing(s: seq<Item>) {
    forall i, j | 0 <= i < j < |s| :: s[i].Ordinal() <= s[j].Ordinal()
  }

  function Keep(x: Item, o: nat): seq<Item> {
    if x.Ordinal() == o then [x] else []
  }

  /** The items of one ordinal, in order. */
  function AtOrdinal(s: seq<Item>, o: nat): seq<Item> {
    if s == [] then [] else Keep(s[0], o) + AtOrdinal(s[1..], o)
  }

  ghost predicate SameAtEachOrdinal(a: seq<Item>, b: seq<Item>) {
    forall o :: AtOrdinal(a, o) == AtOrdinal(b, o)
  }

  /** b is a stable sort of a by ordinal. */
  ghost predicate StableSortOf(a: seq<Item>, b: seq<Item>) {
    NonDecreasing(b) && multiset(a) == multiset(b) && SameAtEachOrdinal(a, b)
  }

  lemma Assoc(a: seq<Item>, b: seq<Item>, c: seq<Item>)
    ensures a + b + c == a + (b + c)
  {
  }

  lemma {:induction false} AtOrdinalConcat(a: seq<Item>, b: seq<Item>, o: nat)
    ensures AtOrdinal(a + b, o) == AtOrdinal(a, o) + AtOrdinal(b, o)
  {
    hide Keep;
    if a == [] {
      assert a + b == b && [] + AtOrdinal(b, o) == AtOrdinal(b, o);
    } else {
      assert (a + b)[1..] == a[1..] + b;
      AtOrdinalConcat(a[1..], b, o);
      Assoc(Keep(a[0], o), AtOrdinal(a[1..], o), AtOrdinal(b, o));
    }
  }

  lemma {:induction false} AtOrdinalHas(s: seq<Item>, o: nat)
    ensures forall x :: x in AtOrdinal(s, o) <==> x in s && x.Ordinal() == o
  {
    if s == [] {
    } else {
      AtOrdinalHas(s[1..], o);
      assert s == [s[0]] + s[1..];
    }
  }

  /** There is only one stable sort. */
  lemma {:induction false} StableSortIsUnique(b: seq<Item>, c: seq<Item>)
    requires NonDecreasing(b) && NonDecreasing(c) && SameAtEachOrdinal(b, c)
    ensures b == c
    decreases |b|
  {
    if b == [] || c == [] {
      if b != [] { EmptyTogether(b, c); }
      if c != [] { EmptyTogether(c, b); }
    } else {
      SameHead(b, c);
      SameTails(b, c);
      StableSortIsUnique(b[1..], c[1..]);
      assert b == [b[0]] + b[1..] && c == [c[0]] + c[1..];
    }
  }

  lemma EmptyTogether(b: seq<Item>, c: seq<Item>)
    requires SameAtEachOrdinal(b, c) && b != []
    ensures c != []
  {
    assert AtOrdinal(b, b[0].Ordinal()) != [] && AtOrdinal(c, b[0].Ordinal()) == AtOrdinal(b, b[0].Ordinal());
  }

  lemma SameHead(b: seq<Item>, c: seq<Item>)
    requires NonDecreasing(b) && NonDecreasing(c) && SameAtEachOrdinal(b, c) && b != [] && c != []
    ensures b[0] == c[0]
  {
    var o, p := b[0].Ordinal(), c[0].Ordinal();
    AtOrdinalHas(b, p);
    AtOrdinalHas(c, o);
    assert b[0] in AtOrdinal(b, o) && AtOrdinal(b, o) == AtOrdinal(c, o);
    assert c[0] in AtOrdinal(c, p) && AtOrdinal(b, p) == AtOrdinal(c, p);
    assert o == p;
    assert AtOrdinal(b, o)[0] == b[0] && AtOrdinal(c, o)[0] == c[0];
  }

  lemma SameTails(b: seq<Item>, c: seq<Item>)
    requires SameAtEachOrdinal(b, c) && b != [] && c != [] && b[0] == c[0]
    ensures SameAtEachOrdinal(b[1..], c[1..])
  {
    forall o
      ensures AtOrdinal(b[1..], o) == AtOrdinal(c[1..], o)
    {
      var head := Keep(b[0], o);
      assert AtOrdinal(b, o) == head + AtOrdinal(b[1..], o) && AtOrdinal(c, o) == head + AtOrdinal(c[1..], o);
      assert (head + AtOrdinal(b[1..], o))[|head|..] == AtOrdinal(b[1..], o);
      assert (head + AtOrdinal(c[1..], o))[|head|..] == AtOrdinal(c[1..], o);
    }
  }

  lemma {:induction false} NoneAtOrdinal(s: seq<Item>, o: nat)
    requires forall i | 0 <= i < |s| :: s[i].Ordinal() != o
    ensures AtOrdinal(s, o) == []
  {
    if s == [] {
    } else {
      NoneAtOrdinal(s[1..], o);
    }
  }

  lemma AtOrdinalSplit(b: seq<Item>, i: nat, o: nat)
    requires i <= |b|
    ensures AtOrdinal(b, o) == AtOrdinal(b[..i], o) + AtOrdinal(b[i..], o)
  {
    hide AtOrdinal;
    AtOrdinalConcat(b[..i], b[i..], o);
    assert b == b[..i] + b[i..];
  }

  lemma AtOrdinalOfThree(l: seq<Item>, m: seq<Item>, r: seq<Item>, o: nat)
    ensures AtOrdinal(l + m + r, o) == AtOrdinal(l, o) + AtOrdinal(m, o) + AtOrdinal(r, o)
  {
    hide AtOrdinal;
    AtOrdinalConcat(l + m, r, o);
    AtOrdinalConcat(l, m, o);
  }

  lemma InsertedAtOrdinal(b: seq<Item>, x: Item, i: nat, o: nat)
    requires i <= |b| && forall k | i <= k < |b| :: x.Ordinal() < b[k].Ordinal()
    ensures AtOrdinal(b[..i] + [x] + b[i..], o) == AtOrdinal(b, o) + AtOrdinal([x], o)
  {
    LaterHasNone(b, x, i, o);
    AtOrdinalOfThree(b[..i], [x], b[i..], o);
    AtOrdinalSplit(b, i, o);
    hide AtOrdinal, Item.Ordinal;
    SwapEnds(AtOrdinal(b[..i], o), AtOrdinal([x], o), AtOrdinal(b[i..], o));
  }

  lemma SwapEnds(l: seq<Item>, m: seq<Item>, r: seq<Item>)
    requires m == [] || r == []
    ensures l + m + r == l + r + m
  {
    assert l + [] == l && l + m + [] == l + m && l + r + [] == l + r;
  }

  lemma LaterHasNone(b: seq<Item>, x: Item, i: nat, o: nat)
    requires i <= |b| && forall k | i <= k < |b| :: x.Ordinal() < b[k].Ordinal()
    ensures AtOrdinal([x], o) == [] || AtOrdinal(b[i..], o) == []
  {
    if o == x.Ordinal() {
      NoneAtOrdinal(b[i..], o);
    } else {
      NoneAtOrdinal([x], o);
    }
  }

  lemma InsertedInOrder(x: Item, b: seq<Item>, i: nat)
    requires NonDecreasing(b) && i <= |b|
    requires forall k | 0 <= k < i :: b[k].Ordinal() <= x.Ordinal()
    requires forall k | i <= k < |b| :: x.Ordinal() < b[k].Ordinal()
    ensures NonDecreasing(b[..i] + [x] + b[i..])
  {
    hide Item.Ordinal;
  }

  /** Inserting after the last item that is not greater keeps a stable sort. */
  lemma InsertedStably(a: seq<Item>, x: Item, b: seq<Item>, i: nat)
    requires StableSortOf(a, b) && i <= |b|
    requires forall k | 0 <= k < i :: b[k].Ordinal() <= x.Ordinal()
    requires forall k | i <= k < |b| :: x.Ordinal() < b[k].Ordinal()
    ensures StableSortOf(a + [x], b[..i] + [x] + b[i..])
  {
    hide AtOrdinal, Item.Ordinal, NonDecreasing;
    InsertedInOrder(x, b, i);
    assert b == b[..i] + b[i..];
    forall o
      ensures AtOrdinal(a + [x], o) == AtOrdinal(b[..i] + [x] + b[i..], o)
    {
      AtOrdinalConcat(a, [x], o);
      InsertedAtOrdinal(b, x, i, o);
    }
  }

  lemma NothingSorted()
    ensures StableSortOf([], [])
  {
  }

  lemma SortedIsOrdered(a: seq<Item>, b: seq<Item>)
    requires StableSortOf(a, b)
    ensures NonDecreasing(b)
  {
  }

  /** `items.sort_by(|a, b| a.ordinal.cmp(&b.ordinal))`, which is stable. */
  method SortByOrdinal(items: seq<Item>) returns (sorted: seq<Item>)
    ensures StableSortOf(items, sorted)
  {
    hide StableSortOf;
    sorted := [];
    NothingSorted();
    for n := 0 to |items|
      invariant StableSortOf(items[..n], sorted)
    {
      var x, i: nat := items[n], |sorted|;
      SortedIsOrdered(items[..n], sorted);
      while i > 0 && x.Ordinal() < sorted[i - 1].Ordinal()
        invariant i <= |sorted| && forall k | i <= k < |sorted| :: x.Ordinal() < sorted[k].Ordinal()
      {
        i := i - 1;
      }
      InsertedStably(items[..n], x, sorted, i);
      assert items[..n + 1] == items[..n] + [x];
      sorted := sorted[..i] + [x] + sorted[i..];
    }
    assert items[..|items|] == items;
  }

  // ---------------------------------------------------------------------
  // Joining
  // ---------------------------------------------------------------------

  /** One of the six loops: pushes the items of one source. */
  method PushAll<T>(items: seq<Item>, ts: seq<T>, wrap: T -> Item) returns (more: seq<Item>)
    ensures more == items + MapAll(ts, wrap)
  {
    more := items;
    for i := 0 to |ts|
      invariant more == items + MapAll(ts, wrap)[..i]
    {
      more := more + [wrap(ts[i])];
    }
  }

  method JoinSortDeltas(s: Sources) returns (items: seq<Item>)
    ensures StableSortOf(Joined(s), items)
  {
    items := PushAll([], s.pairs, OfPair);
    items := PushAll(items, s.tokens, OfToken);
    items := PushAll(items, s.totals, OfTotal);
    items := PushAll(items, s.volumes, OfVolume);
    items := PushAll(items, s.reserves, OfReserve);
    items := PushAll(items, s.events, OfEvent);
    assert [] + MapAll(s.pairs, OfPair) == MapAll(s.pairs, OfPair);
    items := SortByOrdinal(items);
  }

  /** Of two items with one ordinal, the one from the earlier source comes first. */
  lemma TiesKeepSourceOrder(s: Sources, items: seq<Item>, i: nat, j: nat)
    requires StableSortOf(Joined(s), items) && i < j < |items| && items[i].Ordinal() == items[j].Ordinal()
    ensures items[i].Source() <= items[j].Source()
  {
    var o := items[i].Ordinal();
    JoinedBySource(s);
    AtOrdinalBySource(Joined(s), o);
    assert AtOrdinal(items, o) == AtOrdinal(Joined(s), o);
    var k, l := PlaceOf(items, i, j, o);
  }

  ghost predicate BySource(s: seq<Item>) {
    forall i, j | 0 <= i < j < |s| :: s[i].Source() <= s[j].Source()
  }

  ghost predicate Between(s: seq<Item>, lo: nat, hi: nat) {
    BySource(s) && forall i | 0 <= i < |s| :: lo <= s[i].Source() <= hi
  }

  lemma OneSource<T>(ts: seq<T>, wrap: T -> Item, n: nat)
    requires forall i | 0 <= i < |ts| :: wrap(ts[i]).Source() == n
    ensures Between(MapAll(ts, wrap), n, n)
  {
  }

  lemma NextSource(a: seq<Item>, b: seq<Item>, n: nat)
    requires Between(a, 0, n) && Between(b, n + 1, n + 1)
    ensures Between(a + b, 0, n + 1)
  {
    hide Item.Source;
  }

  lemma JoinedBySource(s: Sources)
    ensures BySource(Joined(s))
  {
    OneSource(s.pairs, OfPair, 0);
    OneSource(s.tokens, OfToken, 1);
    OneSource(s.totals, OfTotal, 2);
    OneSource(s.volumes, OfVolume, 3);
    OneSource(s.reserves, OfReserve, 4);
    OneSource(s.events, OfEvent, 5);
    hide Between, MapAll;
    var a := MapAll(s.pairs, OfPair) + MapAll(s.tokens, OfToken);
    NextSource(MapAll(s.pairs, OfPair), MapAll(s.tokens, OfToken), 0);
    NextSource(a, MapAll(s.totals, OfTotal), 1);
    NextSource(a + MapAll(s.totals, OfTotal), MapAll(s.volumes, OfVolume), 2);
    NextSource(a + MapAll(s.totals, OfTotal) + MapAll(s.volumes, OfVolume), MapAll(s.reserves, OfReserve), 3);
    NextSource(a + MapAll(s.totals, OfTotal) + MapAll(s.volumes, OfVolume) + MapAll(s.reserves, OfReserve),
               MapAll(s.events, OfEvent), 4);
    AllBetween(Joined(s));
  }

  lemma AllBetween(s: seq<Item>)
    requires Between(s, 0, 5)
    ensures BySource(s)
  {
  }

  lemma {:induction false} AtOrdinalBySource(s: seq<Item>, o: nat)
    requires BySource(s)
    ensures BySource(AtOrdinal(s, o))
  {
    if s == [] {
    } else {
      assert BySource(s[1..]);
      AtOrdinalBySource(s[1..], o);
      AtOrdinalHas(s[1..], o);
      var t := AtOrdinal(s[1..], o);
      forall k | 0 <= k < |t| ensures s[0].Source() <= t[k].Source() { assert t[k] in t && t[k] in s[1..]; }
    }
  }

  /** Two items of one ordinal keep their order among the items of that ordinal. */
  lemma {:induction false} PlaceOf(s: seq<Item>, i: nat, j: nat, o: nat) returns (k: nat, l: nat)
    requires i < j < |s| && s[i].Ordinal() == s[j].Ordinal() == o
    ensures k < l < |AtOrdinal(s, o)| && AtOrdinal(s, o)[k] == s[i] && AtOrdinal(s, o)[l] == s[j]
  {
    var head := if s[0].Ordinal() == o then 1 else 0;
    if i > 0 {
      k, l := PlaceOf(s[1..], i - 1, j - 1, o);
      k, l := k + head, l + head;
    } else {
      AtOrdinalHas(s[1..], o);
      assert s[j] == s[1..][j - 1] && s[j] in s[1..] && s[j] in AtOrdinal(s[1..], o);
      var m :| 0 <= m < |AtOrdinal(s[1..], o)| && AtOrdinal(s[1..], o)[m] == s[j];
      k, l := 0, m + 1;
    }
  }

  // ---------------------------------------------------------------------
  // Processing
  // ---------------------------------------------------------------------

  /** The key and the fields of a row to create. */
  datatype NewRow = NewRow(pk: string, fields: seq<Sq.Field>)

  /** What the messages inside pair, token and event items decode to. */
  type Decode = Item -> Outcome<NewRow>

  function Created(table: string, op: Sq.Operation, r: Outcome<NewRow>): Handled {
    match r
    case Returned(row) => Returned(Some(Routed(table, row.pk, op, row.fields)))
    case Failed => Panicked
    case Panicked => Panicked
  }

  /** Every event creates a row in the table of its kind; one without a type panics. */
  function HandleEvent(x: Item, event: Event, decode: Decode): Handled {
    match event.kind
    case Swap(_) => Created("swap", Sq.Create, decode(x))
    case Burn => Created("burn", Sq.Create, decode(x))
    case Mint => Created("mint", Sq.Create, decode(x))
    case Missing => Panicked
  }

  /** The dispatch: pairs and tokens change rows only when they are created. */
  function Handle(x: Item, decode: Decode): Handled {
    match x
    case PairDelta(d) => if d.operation == Sq.Create then Created("pair", d.operation, decode(x)) else Nothing()
    case PcsTokenDelta(d) => if d.operation == Sq.Create then Created("token", d.operation, decode(x)) else Nothing()
    case TotalDelta(d) => RouteTotal(d)
    case VolumeDelta(d) => RouteVolume(d)
    case ReserveDelta(d) => RouteReserve(d)
    case EventItem(event) => HandleEvent(x, event, decode)
  }

  /** Each handler stamps its change with the block number and the item's ordinal. */
  function ChangeFor(x: Item, r: Routed, blockNum: nat): Sq.Change {
    Sq.Change(r.table, r.pk, blockNum, x.Ordinal(), r.op, r.fields)
  }

  function Emits(x: Item, decode: Decode, blockNum: nat): seq<Sq.Change> {
    match Handle(x, decode)
    case Returned(Some(r)) => [ChangeFor(x, r, blockNum)]
    case _ => []
  }

  function Emitted(items: seq<Item>, decode: Decode, blockNum: nat): seq<Sq.Change> {
    if items == [] then []
    else Emitted(items[..|items| - 1], decode, blockNum) + Emits(items[|items| - 1], decode, blockNum)
  }

  ghost predicate NoPanic(items: seq<Item>, decode: Decode) {
    forall x | x in items :: Handle(x, decode).Returned?
  }

  lemma {:induction false} EmittedBelow(items: seq<Item>, decode: Decode, blockNum: nat, bound: nat)
    requires forall x | x in items :: x.Ordinal() <= bound
    ensures forall c | c in Emitted(items, decode, blockNum) :: c.ordinal <= bound
  {
    hide Handle;
    if items == [] {
    } else {
      assert items[|items| - 1] in items;
      EmittedBelow(items[..|items| - 1], decode, blockNum, bound);
    }
  }

  lemma {:induction false} EmittedInOrder(items: seq<Item>, decode: Decode, blockNum: nat)
    requires NonDecreasing(items)
    ensures Sq.Sorted(Emitted(items, decode, blockNum))
  {
    hide Handle;
    if items == [] {
    } else {
      var before, last := items[..|items| - 1], items[|items| - 1];
      EmittedInOrder(before, decode, blockNum);
      forall x | x in before
        ensures x.Ordinal() <= last.Ordinal()
      {
        var i :| 0 <= i < |before| && before[i] == x;
        assert items[i] == x;
      }
      EmittedBelow(before, decode, blockNum, last.Ordinal());
      var e := Emitted(before, decode, blockNum);
      forall k | 0 <= k < |e| ensures e[k].ordinal <= last.Ordinal() { assert e[k] in e; }
    }
  }

  /** Makes a block's table changes, or panics as one of its handlers does. The
      ordinals of the changes never decrease; on a tie within one row the next
      stage fails, see ClashFails. */
  method Process(s: Sources, decode: Decode, blockNum: nat) returns (ok: bool, changes: seq<Sq.Change>)
    ensures ok <==> NoPanic(Joined(s), decode)
    ensures ok ==> exists items :: StableSortOf(Joined(s), items) && changes == Emitted(items, decode, blockNum)
    ensures ok ==> Sq.SortOf(changes, changes)
  {
    hide Handle, Joined, StableSortOf, NoPanic, Sq.SortOf;
    var items := JoinSortDeltas(s);
    SortedPanicsAlike(Joined(s), items, decode);
    NothingPanics(decode);
    changes := [];
    for i := 0 to |items|
      invariant changes == Emitted(items[..i], decode, blockNum)
      invariant NoPanic(items[..i], decode)
    {
      assert items[..i + 1][..i] == items[..i];
      var r := Handle(items[i], decode);
      PanicsFirst(items, i, decode);
      if !r.Returned? {
        return false, [];
      }
      if r.value.Some? {
        changes := changes + [ChangeFor(items[i], r.value.value, blockNum)];
      }
    }
    assert items[..|items|] == items;
    SortedInOrder(Joined(s), items, decode, blockNum);
    ok := true;
  }

  lemma SortedPanicsAlike(a: seq<Item>, b: seq<Item>, decode: Decode)
    requires StableSortOf(a, b)
    ensures NoPanic(a, decode) <==> NoPanic(b, decode)
  {
    hide Handle, NonDecreasing, SameAtEachOrdinal;
    assert forall x :: x in a <==> x in multiset(a);
    assert forall x :: x in b <==> x in multiset(b);
  }

  lemma NothingPanics(decode: Decode)
    ensures NoPanic([], decode)
  {
  }

  lemma PanicsFirst(items: seq<Item>, i: nat, decode: Decode)
    requires i < |items| && NoPanic(items[..i], decode)
    ensures Handle(items[i], decode).Returned? ==> NoPanic(items[..i + 1], decode)
    ensures !Handle(items[i], decode).Returned? ==> !NoPanic(items, decode)
  {
    hide Handle;
    assert items[..i + 1] == items[..i] + [items[i]] && items[i] in items;
  }

  lemma SortedInOrder(a: seq<Item>, items: seq<Item>, decode: Decode, blockNum: nat)
    requires StableSortOf(a, items)
    ensures Sq.SortOf(Emitted(items, decode, blockNum), Emitted(items, decode, blockNum))
  {
    EmittedInOrder(items, decode, blockNum);
  }

  // ---------------------------------------------------------------------
  // Ties are fatal to the next stage
  // ---------------------------------------------------------------------

  /** Where the change of item i stands in the list. */
  lemma {:induction false} EmittedAt(items: seq<Item>, decode: Decode, blockNum: nat, i: nat) returns (p: nat)
    requires i < |items| && Emits(items[i], decode, blockNum) != []
    ensures p == |Emitted(items[..i], decode, blockNum)| < |Emitted(items, decode, blockNum)|
    ensures Emitted(items, decode, blockNum)[p] == Emits(items[i], decode, blockNum)[0]
  {
    hide Handle;
    var m := |items| - 1;
    if i == m {
      p := |Emitted(items[..m], decode, blockNum)|;
    } else {
      assert items[..m][..i] == items[..i];
      p := EmittedAt(items[..m], decode, blockNum, i);
    }
  }

  lemma {:induction false} EmittedGrows(items: seq<Item>, decode: Decode, blockNum: nat, i: nat)
    requires i <= |items|
    ensures |Emitted(items[..i], decode, blockNum)| <= |Emitted(items, decode, blockNum)|
    decreases |items| - i
  {
    hide Emits;
    if i == |items| {
      assert items[..i] == items;
    } else {
      EmittedGrows(items, decode, blockNum, i + 1);
      assert items[..i + 1][..i] == items[..i];
    }
  }

  /** Two items of one ordinal that change one row make the squash fail. */
  lemma ClashFails(items: seq<Item>, decode: Decode, blockNum: nat, i: nat, j: nat, a: Sq.Change, b: Sq.Change)
    requires i < j < |items| && items[i].Ordinal() == items[j].Ordinal()
    requires Emits(items[i], decode, blockNum) == [a] && Emits(items[j], decode, blockNum) == [b]
    requires a.RowKey() == b.RowKey()
    ensures Sq.SquashFails(Emitted(items, decode, blockNum))
  {
    hide Handle, Emitted;
    var p := EmittedAt(items, decode, blockNum, i);
    var q := EmittedAt(items, decode, blockNum, j);
    EmittedBefore(items, decode, blockNum, i, j);
    H.ClashInList(Emitted(items, decode, blockNum), p, q);
  }

  lemma EmittedBefore(items: seq<Item>, decode: Decode, blockNum: nat, i: nat, j: nat)
    requires i < j <= |items| && Emits(items[i], decode, blockNum) != []
    ensures |Emitted(items[..i], decode, blockNum)| < |Emitted(items[..j], decode, blockNum)|
  {
    hide Emits;
    EmittedGrows(items[..j], decode, blockNum, i + 1);
    assert items[..j][..i + 1] == items[..i + 1] && items[..i + 1][..i] == items[..i];
  }

  /** A swap adds to the global volumes in dollars and in coins at one ordinal, and
      both go to the factory's row: no block with such a swap can be squashed. */
  lemma SwapNeverSquashes(s: Sources, items: seq<Item>, decode: Decode, blockNum: nat, usd: Delta, bnb: Delta)
    requires StableSortOf(Joined(s), items) && usd in s.volumes && bnb in s.volumes
    requires usd.key == "global:usd" && bnb.key == "global:bnb" && usd.ordinal == bnb.ordinal
    ensures Sq.SquashFails(Emitted(items, decode, blockNum))
  {
    var x, y := VolumeDelta(usd), VolumeDelta(bnb);
    VolumeIsJoined(s, usd);
    VolumeIsJoined(s, bnb);
    var i := PlaceInSort(Joined(s), items, x);
    var j := PlaceInSort(Joined(s), items, y);
    GlobalVolumes(usd, bnb);
    var a := VolumeEmits(usd, decode, blockNum);
    var b := VolumeEmits(bnb, decode, blockNum);
    hide Emits, Emitted, StableSortOf, RouteVolume, Joined;
    if i < j {
      ClashFails(items, decode, blockNum, i, j, a, b);
    } else {
      ClashFails(items, decode, blockNum, j, i, b, a);
    }
  }

  lemma VolumeEmits(d: Delta, decode: Decode, blockNum: nat) returns (c: Sq.Change)
    requires RouteVolume(d).Returned? && RouteVolume(d).value.Some?
    ensures c == ChangeFor(VolumeDelta(d), RouteVolume(d).value.value, blockNum)
    ensures Emits(VolumeDelta(d), decode, blockNum) == [c]
  {
    hide RouteVolume;
    c := ChangeFor(VolumeDelta(d), RouteVolume(d).value.value, blockNum);
  }

  lemma PlaceInSort(a: seq<Item>, b: seq<Item>, x: Item) returns (i: nat)
    requires StableSortOf(a, b) && x in a
    ensures i < |b| && b[i] == x
  {
    hide NonDecreasing, SameAtEachOrdinal;
    assert x in multiset(b);
    i :| 0 <= i < |b| && b[i] == x;
  }

  lemma VolumeIsJoined(s: Sources, d: Delta)
    requires d in s.volumes
    ensures VolumeDelta(d) in Joined(s)
  {
    var i :| 0 <= i < |s.volumes| && s.volumes[i] == d;
    assert MapAll(s.volumes, OfVolume)[i] == VolumeDelta(d);
    assert VolumeDelta(d) in MapAll(s.volumes, OfVolume);
  }
}
