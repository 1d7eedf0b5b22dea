/**
 Which row and column each delta of a block changes, by the text of its key. The keys, tables,
 columns and operations are spelled out; `rest` is what a longer key goes on with.
 */
module DeltaRows {
  import opened Prelude
  import opened BlockRanges
  import opened Routing
  import opened DeltaMerges
  import T = Totals
  import Sq = Squash

  // ---------------------------------------------------------------------
  // The list is made item by item
  // ---------------------------------------------------------------------

  lemma {:induction false} EmittedConcat(a: seq<Item>, b: seq<Item>, decode: Decode, n: nat)
    ensures Emitted(a + b, decode, n) == Emitted(a, decode, n) + Emitted(b, decode, n)
  {
    hide Emits;
    if b == [] {
      assert a + b == a;
    } else {
      var m := |b| - 1;
      assert (a + b)[..|a| + m] == a + b[..m];
      EmittedConcat(a, b[..m], decode, n);
    }
  }

  lemma EmittedOne(x: Item, decode: Decode, n: nat)
    ensures Emitted([x], decode, n) == Emits(x, decode, n)
  {
    hide Emits;
    assert [x][..0] == [];
  }

  /** A change is in the list exactly when some item makes it. */
  lemma {:induction false} EmittedIff(items: seq<Item>, decode: Decode, n: nat, c: Sq.Change)
    ensures c in Emitted(items, decode, n) <==> exists x :: x in items && c in Emitted([x], decode, n)
  {
    hide Emits;
    if items == [] {
    } else {
      var m := |items| - 1;
      EmittedIff(items[..m], decode, n, c);
      EmittedOne(items[m], decode, n);
      assert items == items[..m] + [items[m]];
    }
  }

  /** A change of the block's list is made by some item of the six sources, and each of theirs is there. */
  lemma ProcessedIff(s: Sources, items: seq<Item>, decode: Decode, n: nat, c: Sq.Change)
    requires StableSortOf(Joined(s), items)
    ensures c in Emitted(items, decode, n) <==> exists x :: x in Joined(s) && c in Emitted([x], decode, n)
  {
    hide Emitted, Joined, NonDecreasing, SameAtEachOrdinal;
    EmittedIff(items, decode, n, c);
    assert forall x :: x in items <==> x in multiset(items);
    assert forall x :: x in Joined(s) <==> x in multiset(Joined(s));
  }

  /** The handlers panic exactly when one of them does. */
  lemma NoPanicIff(items: seq<Item>, decode: Decode)
    ensures NoPanic(items, decode) <==> forall x | x in items :: NoPanic([x], decode)
  {
    hide Handle;
    assert forall x | x in items :: x in [x];
  }

  lemma NoPanicOne(x: Item, decode: Decode)
    ensures NoPanic([x], decode) <==> Handle(x, decode).Returned?
  {
    hide Handle;
    assert x in [x];
  }

  /** The joined list has every pair, token, total, volume and reserve delta and every event, in
      this order of sources. */
  lemma JoinedIs(s: Sources)
    ensures var (a, b, c) := (|s.pairs|, |s.pairs| + |s.tokens|, |s.pairs| + |s.tokens| + |s.totals|);
            var (d, e) := (c + |s.volumes|, c + |s.volumes| + |s.reserves|);
            && |Joined(s)| == e + |s.events|
            && Joined(s)[..a] == seq(|s.pairs|, i requires 0 <= i < |s.pairs| => PairDelta(s.pairs[i]))
            && Joined(s)[a..b] == seq(|s.tokens|, i requires 0 <= i < |s.tokens| => PcsTokenDelta(s.tokens[i]))
            && Joined(s)[b..c] == seq(|s.totals|, i requires 0 <= i < |s.totals| => TotalDelta(s.totals[i]))
            && Joined(s)[c..d] == seq(|s.volumes|, i requires 0 <= i < |s.volumes| => VolumeDelta(s.volumes[i]))
            && Joined(s)[d..e] == seq(|s.reserves|, i requires 0 <= i < |s.reserves| => ReserveDelta(s.reserves[i]))
            && Joined(s)[e..] == seq(|s.events|, i requires 0 <= i < |s.events| => EventItem(s.events[i]))
  {
    var p, t, c := MapAll(s.pairs, OfPair), MapAll(s.tokens, OfToken), MapAll(s.totals, OfTotal);
    var v, r, e := MapAll(s.volumes, OfVolume), MapAll(s.reserves, OfReserve), MapAll(s.events, OfEvent);
    SixParts(p, t, c, v, r, e);
    assert p == seq(|s.pairs|, i requires 0 <= i < |s.pairs| => PairDelta(s.pairs[i]));
    assert t == seq(|s.tokens|, i requires 0 <= i < |s.tokens| => PcsTokenDelta(s.tokens[i]));
    assert c == seq(|s.totals|, i requires 0 <= i < |s.totals| => TotalDelta(s.totals[i]));
    assert v == seq(|s.volumes|, i requires 0 <= i < |s.volumes| => VolumeDelta(s.volumes[i]));
    assert r == seq(|s.reserves|, i requires 0 <= i < |s.reserves| => ReserveDelta(s.reserves[i]));
    assert e == seq(|s.events|, i requires 0 <= i < |s.events| => EventItem(s.events[i]));
  }

  lemma SixParts(p: seq<Item>, t: seq<Item>, c: seq<Item>, v: seq<Item>, r: seq<Item>, e: seq<Item>)
    ensures var all := p + t + c + v + r + e;
            && all[..|p|] == p
            && all[|p|..|p| + |t|] == t
            && all[|p| + |t|..|p| + |t| + |c|] == c
            && all[|p| + |t| + |c|..|p| + |t| + |c| + |v|] == v
            && all[|p| + |t| + |c| + |v|..|p| + |t| + |c| + |v| + |r|] == r
            && all[|p| + |t| + |c| + |v| + |r|..] == e
  {
  }

  /** What a delta of a total, a volume or a reserve emits, if anything, carries the block's
      number, the delta's ordinal, and one field with the delta's own values. */
  lemma CarriesTheDelta(d: Delta, decode: Decode, n: nat, x: Item, c: Sq.Change)
    requires x == TotalDelta(d) || x == VolumeDelta(d) || x == ReserveDelta(d)
    requires c in Emitted([x], decode, n)
    ensures Emitted([x], decode, n) == [c] && c.blockNum == n && c.ordinal == d.ordinal
    ensures |c.fields| == 1 && c.fields[0].newValue == d.newValue && c.fields[0].oldValue == d.oldValue
  {
    TotalCarries(d);
    VolumeCarries(d);
    ReserveCarries(d);
    hide RouteTotal, RouteVolume, RouteReserve;
    EmittedOne(x, decode, n);
  }

  lemma TotalCarries(d: Delta)
    ensures RouteTotal(d).Returned? && RouteTotal(d).value.Some? ==>
              var fields := RouteTotal(d).value.value.fields;
              |fields| == 1 && fields[0].newValue == d.newValue && fields[0].oldValue == d.oldValue
  {
    hide Split;
  }

  lemma VolumeCarries(d: Delta)
    ensures RouteVolume(d).Returned? && RouteVolume(d).value.Some? ==>
              var fields := RouteVolume(d).value.value.fields;
              |fields| == 1 && fields[0].newValue == d.newValue && fields[0].oldValue == d.oldValue
  {
    hide Split;
  }

  lemma ReserveCarries(d: Delta)
    ensures RouteReserve(d).Returned? && RouteReserve(d).value.Some? ==>
              var fields := RouteReserve(d).value.value.fields;
              |fields| == 1 && fields[0].newValue == d.newValue && fields[0].oldValue == d.oldValue
  {
    hide Split;
  }

  /** Pair and token deltas create a row exactly when they are creations, with the key and the
      fields of their message; they panic exactly when that message cannot be decoded. */
  lemma PairsAndTokensOnCreate(d: Delta, decode: Decode, n: nat)
    ensures d.operation != Sq.Create ==>
              && Emitted([PairDelta(d)], decode, n) == [] && NoPanic([PairDelta(d)], decode)
              && Emitted([PcsTokenDelta(d)], decode, n) == [] && NoPanic([PcsTokenDelta(d)], decode)
    ensures d.operation == Sq.Create ==>
              && (NoPanic([PairDelta(d)], decode) <==> decode(PairDelta(d)).Returned?)
              && (NoPanic([PcsTokenDelta(d)], decode) <==> decode(PcsTokenDelta(d)).Returned?)
    ensures d.operation == Sq.Create && decode(PairDelta(d)).Returned? ==>
              var row := decode(PairDelta(d)).value;
              Emitted([PairDelta(d)], decode, n) ==
              [Sq.Change("pair", row.pk, n, d.ordinal, Sq.Create, row.fields)]
    ensures d.operation == Sq.Create && decode(PcsTokenDelta(d)).Returned? ==>
              var row := decode(PcsTokenDelta(d)).value;
              Emitted([PcsTokenDelta(d)], decode, n) ==
              [Sq.Change("token", row.pk, n, d.ordinal, Sq.Create, row.fields)]
  {
    EmittedOne(PairDelta(d), decode, n);
    EmittedOne(PcsTokenDelta(d), decode, n);
    NoPanicOne(PairDelta(d), decode);
    NoPanicOne(PcsTokenDelta(d), decode);
  }

  /** Every event creates a row in the table of its kind; one without a type panics. */
  lemma EventsCreate(e: T.Event, decode: Decode, n: nat)
    ensures NoPanic([EventItem(e)], decode) <==> e.kind != T.Missing && decode(EventItem(e)).Returned?
    ensures e.kind != T.Missing && decode(EventItem(e)).Returned? ==>
              var row := decode(EventItem(e)).value;
              Emitted([EventItem(e)], decode, n) ==
              [Sq.Change(if e.kind.Swap? then "swap" else if e.kind.Burn? then "burn" else "mint",
                         row.pk, n, e.logOrdinal, Sq.Create, row.fields)]
  {
    EmittedOne(EventItem(e), decode, n);
    NoPanicOne(EventItem(e), decode);
  }

  // ---------------------------------------------------------------------
  // Key texts
  // ---------------------------------------------------------------------

  lemma PartsOfTwo(head: string, a: string, b: string, rest: string)
    requires head == a + ":" + b && ':' !in a && ':' !in b && Ends(rest)
    ensures var parts := Split(head + rest, ':');
            |parts| >= 2 && parts[0] == a && parts[1] == b
  {
    KeyTwo(a, b, rest);
  }

  lemma PartsOfThree(head: string, a: string, b: string, tail: string, c: string, rest: string)
    requires head == a + ":" && tail == ":" + c && ':' !in a && ':' !in b && ':' !in c && Ends(rest)
    ensures var parts := Split(head + b + tail + rest, ':');
            |parts| >= 3 && parts[0] == a && parts[1] == b && parts[2] == c
  {
    KeyThree(a, b, c, rest);
    hide Split;
    assert head + b + tail + rest == a + ":" + b + ":" + c + rest;
  }

  lemma PartsOfFour(head: string, a: string, b: string, c: string, tail: string, e: string, rest: string)
    requires head == a + ":" && tail == ":" + e
    requires ':' !in a && ':' !in b && ':' !in c && ':' !in e && Ends(rest)
    ensures var parts := Split(head + b + ":" + c + tail + rest, ':');
            |parts| >= 4 && parts[0] == a && parts[1] == b && parts[2] == c && parts[3] == e
  {
    KeyFour(a, b, c, e, rest);
    hide Split;
    assert head + b + ":" + c + tail + rest == a + ":" + b + ":" + c + ":" + e + rest;
  }

  lemma JoinTwo(head: string, a: string, b: string, rest: string)
    requires head == a + ":" + b
    ensures a + ":" + b + rest == head + rest
  {
  }

  lemma JoinThree(head: string, a: string, b: string, tail: string, c: string, rest: string)
    requires head == a + ":" && tail == ":" + c
    ensures a + ":" + b + ":" + c + rest == head + b + tail + rest
  {
    assert a + ":" + b + ":" + c + rest == a + ":" + b + (":" + c) + rest;
  }

  lemma JoinFour(head: string, a: string, b: string, c: string, tail: string, e: string, rest: string)
    requires head == a + ":" && tail == ":" + e
    ensures a + ":" + b + ":" + c + ":" + e + rest == head + b + ":" + c + tail + rest
  {
    assert a + ":" + b + ":" + c + ":" + e + rest == a + ":" + b + ":" + c + (":" + e) + rest;
  }

  // ---------------------------------------------------------------------
  // Totals
  // ---------------------------------------------------------------------

  lemma OneTotal(d: Delta, decode: Decode, n: nat, table: string, pk: string, op: Sq.Operation, column: string)
    requires RouteTotal(d) == Returned(Some(Routed(table, pk, op, [Sq.Field(column, d.newValue, d.oldValue)])))
    ensures Emitted([TotalDelta(d)], decode, n) ==
            [Sq.Change(table, pk, n, d.ordinal, op, [Sq.Field(column, d.newValue, d.oldValue)])]
  {
    hide RouteTotal;
    EmittedOne(TotalDelta(d), decode, n);
  }

  /** The transactions of a pair. */
  lemma PairTotals(d: Delta, decode: Decode, n: nat, p: string, rest: string)
    requires ':' !in p && (rest == "" || rest[0] == ':')
    ensures d.key == "pair:" + p + ":transaction_count" + rest ==>
              Emitted([TotalDelta(d)], decode, n) ==
              [Sq.Change("pair", p, n, d.ordinal, d.operation,
                         [Sq.Field("total_transactions", d.newValue, d.oldValue)])]
  {
    hide Split, Emitted;
    if d.key == "pair:" + p + ":transaction_count" + rest {
      PartsOfThree("pair:", "pair", p, ":transaction_count", "transaction_count", rest);
      OneTotal(d, decode, n, "pair", p, d.operation, "total_transactions");
    }
  }

  /** The transactions of a token. */
  lemma TokenTotals(d: Delta, decode: Decode, n: nat, t: string, rest: string)
    requires ':' !in t && (rest == "" || rest[0] == ':')
    ensures d.key == "token:" + t + ":transaction_count" + rest ==>
              Emitted([TotalDelta(d)], decode, n) ==
              [Sq.Change("token", t, n, d.ordinal, d.operation,
                         [Sq.Field("total_transactions", d.newValue, d.oldValue)])]
  {
    hide Split, Emitted;
    if d.key == "token:" + t + ":transaction_count" + rest {
      PartsOfThree("token:", "token", t, ":transaction_count", "transaction_count", rest);
      OneTotal(d, decode, n, "token", t, d.operation, "total_transactions");
    }
  }

  lemma FactoryTexts()
    ensures "global:transaction_count" == "global" + ":" + "transaction_count"
    ensures "global:pair_count" == "global" + ":" + "pair_count"
    ensures "global:usd" == "global" + ":" + "usd" && "global:bnb" == "global" + ":" + "bnb"
    ensures "global:liquidity_usd" == "global" + ":" + "liquidity_usd"
  {
  }

  /** The transactions and the pairs of the whole exchange. */
  lemma FactoryTotals(d: Delta, decode: Decode, n: nat, rest: string)
    requires rest == "" || rest[0] == ':'
    ensures d.key == "global:transaction_count" + rest ==>
              Emitted([TotalDelta(d)], decode, n) ==
              [Sq.Change("pancake_factory", "ca143ce32fe78f1f7019d7d551a6402fc5350c73", n,
                         d.ordinal, Sq.Update,
                         [Sq.Field("total_transactions", d.newValue, d.oldValue)])]
    ensures d.key == "global:pair_count" + rest ==>
              Emitted([TotalDelta(d)], decode, n) ==
              [Sq.Change("pancake_factory", "ca143ce32fe78f1f7019d7d551a6402fc5350c73", n,
                         d.ordinal, d.operation,
                         [Sq.Field("total_pairs", d.newValue, d.oldValue)])]
  {
    hide Split, Emitted;
    FactoryTexts();
    if d.key == "global:transaction_count" + rest {
      PartsOfTwo("global:transaction_count", "global", "transaction_count", rest);
      OneTotal(d, decode, n, "pancake_factory", "ca143ce32fe78f1f7019d7d551a6402fc5350c73",
        Sq.Update, "total_transactions");
    }
    if d.key == "global:pair_count" + rest {
      PartsOfTwo("global:pair_count", "global", "pair_count", rest);
      OneTotal(d, decode, n, "pancake_factory", "ca143ce32fe78f1f7019d7d551a6402fc5350c73", d.operation, "total_pairs");
    }
  }

  /** The transactions of a day. */
  lemma DayTotals(d: Delta, decode: Decode, n: nat, day: string, rest: string)
    requires ':' !in day && (rest == "" || rest[0] == ':')
    requires d.operation != Sq.Delete
    ensures d.key == "global_day:" + day + ":transaction_count" + rest ==>
              Emitted([TotalDelta(d)], decode, n) ==
              [Sq.Change("pancake_day_data", day, n, d.ordinal, Sq.Update,
                         [Sq.Field("total_transactions", d.newValue, d.oldValue)])]
  {
    hide Split, Emitted;
    if d.key == "global_day:" + day + ":transaction_count" + rest {
      PartsOfThree("global_day:", "global_day", day, ":transaction_count", "transaction_count", rest);
      OneTotal(d, decode, n, "pancake_day_data", day, Sq.Update, "total_transactions");
    }
  }

  lemma IsPairTotals(d: Delta) returns (a: string, b: string, rest: string)
    requires RouteTotal(d).Returned? && RouteTotal(d).value.Some? && Split(d.key, ':')[0] == "pair"
    ensures ':' !in a && ':' !in b && Ends(rest)
    ensures d.key == "pair:" + a + ":transaction_count" + rest
  {
    hide Split;
    var parts := Split(d.key, ':');
    a, b := parts[1], "";
    rest := UnsplitThree(d.key);
    JoinThree("pair:", "pair", a, ":transaction_count", "transaction_count", rest);
  }

  lemma IsTokenTotals(d: Delta) returns (a: string, b: string, rest: string)
    requires RouteTotal(d).Returned? && RouteTotal(d).value.Some? && Split(d.key, ':')[0] == "token"
    ensures ':' !in a && ':' !in b && Ends(rest)
    ensures d.key == "token:" + a + ":transaction_count" + rest
  {
    hide Split;
    var parts := Split(d.key, ':');
    a, b := parts[1], "";
    rest := UnsplitThree(d.key);
    JoinThree("token:", "token", a, ":transaction_count", "transaction_count", rest);
  }

  lemma IsFactoryTotals(d: Delta) returns (a: string, b: string, rest: string)
    requires RouteTotal(d).Returned? && RouteTotal(d).value.Some? && Split(d.key, ':')[0] == "global"
    ensures ':' !in a && ':' !in b && Ends(rest)
    ensures || d.key == "global:transaction_count" + rest
            || d.key == "global:pair_count" + rest
  {
    hide Split;
    FactoryTexts();
    var parts := Split(d.key, ':');
    a, b := "", "";
    rest := UnsplitTwo(d.key);
    JoinTwo("global:transaction_count", "global", "transaction_count", rest);
    JoinTwo("global:pair_count", "global", "pair_count", rest);
  }

  lemma IsDayTotals(d: Delta) returns (a: string, b: string, rest: string)
    requires RouteTotal(d).Returned? && RouteTotal(d).value.Some? && Split(d.key, ':')[0] == "global_day"
    ensures d.operation != Sq.Delete
    ensures ':' !in a && ':' !in b && Ends(rest)
    ensures d.key == "global_day:" + a + ":transaction_count" + rest
  {
    hide Split;
    var parts := Split(d.key, ':');
    a, b := parts[1], "";
    rest := UnsplitThree(d.key);
    JoinThree("global_day:", "global_day", a, ":transaction_count", "transaction_count", rest);
  }

  /** Every other key of a total delta emits nothing. */
  lemma TotalsOnly(d: Delta, decode: Decode, n: nat) returns (a: string, b: string, rest: string)
    requires Emitted([TotalDelta(d)], decode, n) != []
    ensures ':' !in a && ':' !in b && (rest == "" || rest[0] == ':')
    ensures || d.key == "pair:" + a + ":transaction_count" + rest
            || d.key == "token:" + a + ":transaction_count" + rest
            || d.key == "global:transaction_count" + rest
            || d.key == "global:pair_count" + rest
            || (d.operation != Sq.Delete && d.key == "global_day:" + a + ":transaction_count" + rest)
  {
    hide Split;
    EmittedOne(TotalDelta(d), decode, n);
    var head := Split(d.key, ':')[0];
    if head == "pair" {
      a, b, rest := IsPairTotals(d);
    } else if head == "token" {
      a, b, rest := IsTokenTotals(d);
    } else if head == "global" {
      a, b, rest := IsFactoryTotals(d);
    } else {
      a, b, rest := IsDayTotals(d);
    }
  }

  lemma TotalPanics(d: Delta)
    ensures var parts := Split(d.key, ':');
            RouteTotal(d).Returned? <==>
            && (parts[0] == "pair" ==> |parts| > 2)
            && (parts[0] == "token" ==> |parts| > 2)
            && (parts[0] == "global" ==> |parts| > 1)
            && (parts[0] == "global_day" && d.operation != Sq.Delete ==> |parts| > 2)
  {
    hide Split;
  }

  /** A key that ends before the parts its handler reads panics, and no other does. */
  lemma TotalsPanicIff(d: Delta, decode: Decode)
    ensures NoPanic([TotalDelta(d)], decode) <==>
            && (Leads("pair", d.key) ==> multiset(d.key)[':'] >= 2)
            && (Leads("token", d.key) ==> multiset(d.key)[':'] >= 2)
            && (Leads("global", d.key) ==> multiset(d.key)[':'] >= 1)
            && (Leads("global_day", d.key) && d.operation != Sq.Delete ==> multiset(d.key)[':'] >= 2)
  {
    hide Split, NoPanic, RouteTotal, Leads;
    NoPanicOne(TotalDelta(d), decode);
    TotalPanics(d);
    PartsAreColons(d.key);
    FirstPart(d.key, "pair");
    FirstPart(d.key, "token");
    FirstPart(d.key, "global");
    FirstPart(d.key, "global_day");
  }

  // ---------------------------------------------------------------------
  // Volumes
  // ---------------------------------------------------------------------

  lemma OneVolume(d: Delta, decode: Decode, n: nat, table: string, pk: string, op: Sq.Operation, column: string)
    requires RouteVolume(d) == Returned(Some(Routed(table, pk, op, [Sq.Field(column, d.newValue, d.oldValue)])))
    ensures Emitted([VolumeDelta(d)], decode, n) ==
            [Sq.Change(table, pk, n, d.ordinal, op, [Sq.Field(column, d.newValue, d.oldValue)])]
  {
    hide RouteVolume;
    EmittedOne(VolumeDelta(d), decode, n);
  }

  /** The volumes of a pair on a day. */
  lemma PairDayVolumes(d: Delta, decode: Decode, n: nat, day: string, p: string, rest: string)
    requires ':' !in day && ':' !in p && (rest == "" || rest[0] == ':')
    requires d.operation != Sq.Delete
    ensures d.key == "pair_day:" + day + ":" + p + ":usd" + rest ==>
              Emitted([VolumeDelta(d)], decode, n) ==
              [Sq.Change("pair_day_data", p + "-" + day, n, d.ordinal, Sq.Update,
                         [Sq.Field("daily_volume_usd", d.newValue, d.oldValue)])]
    ensures d.key == "pair_day:" + day + ":" + p + ":token0" + rest ==>
              Emitted([VolumeDelta(d)], decode, n) ==
              [Sq.Change("pair_day_data", p + "-" + day, n, d.ordinal, Sq.Update,
                         [Sq.Field("daily_volume_token_0", d.newValue, d.oldValue)])]
    ensures d.key == "pair_day:" + day + ":" + p + ":token1" + rest ==>
              Emitted([VolumeDelta(d)], decode, n) ==
              [Sq.Change("pair_day_data", p + "-" + day, n, d.ordinal, Sq.Update,
                         [Sq.Field("daily_volume_token_1", d.newValue, d.oldValue)])]
  {
    hide Split, Emitted;
    if d.key == "pair_day:" + day + ":" + p + ":usd" + rest {
      PartsOfFour("pair_day:", "pair_day", day, p, ":usd", "usd", rest);
      OneVolume(d, decode, n, "pair_day_data", p + "-" + day, Sq.Update, "daily_volume_usd");
    }
    if d.key == "pair_day:" + day + ":" + p + ":token0" + rest {
      PartsOfFour("pair_day:", "pair_day", day, p, ":token0", "token0", rest);
      OneVolume(d, decode, n, "pair_day_data", p + "-" + day, Sq.Update, "daily_volume_token_0");
    }
    if d.key == "pair_day:" + day + ":" + p + ":token1" + rest {
      PartsOfFour("pair_day:", "pair_day", day, p, ":token1", "token1", rest);
      OneVolume(d, decode, n, "pair_day_data", p + "-" + day, Sq.Update, "daily_volume_token_1");
    }
  }

  /** The volumes of a pair in an hour. */
  lemma PairHourVolumes(d: Delta, decode: Decode, n: nat, hour: string, p: string, rest: string)
    requires ':' !in hour && ':' !in p && (rest == "" || rest[0] == ':')
    requires d.operation != Sq.Delete
    ensures d.key == "pair_hour:" + hour + ":" + p + ":usd" + rest ==>
              Emitted([VolumeDelta(d)], decode, n) ==
              [Sq.Change("pair_hour_data", p + "-" + hour, n, d.ordinal, Sq.Update,
                         [Sq.Field("hourly_volume_usd", d.newValue, d.oldValue)])]
    ensures d.key == "pair_hour:" + hour + ":" + p + ":token0" + rest ==>
              Emitted([VolumeDelta(d)], decode, n) ==
              [Sq.Change("pair_hour_data", p + "-" + hour, n, d.ordinal, Sq.Update,
                         [Sq.Field("hourly_volume_token_0", d.newValue, d.oldValue)])]
    ensures d.key == "pair_hour:" + hour + ":" + p + ":token1" + rest ==>
              Emitted([VolumeDelta(d)], decode, n) ==
              [Sq.Change("pair_hour_data", p + "-" + hour, n, d.ordinal, Sq.Update,
                         [Sq.Field("hourly_volume_token_1", d.newValue, d.oldValue)])]
  {
    hide Split, Emitted;
    if d.key == "pair_hour:" + hour + ":" + p + ":usd" + rest {
      PartsOfFour("pair_hour:", "pair_hour", hour, p, ":usd", "usd", rest);
      OneVolume(d, decode, n, "pair_hour_data", p + "-" + hour, Sq.Update, "hourly_volume_usd");
    }
    if d.key == "pair_hour:" + hour + ":" + p + ":token0" + rest {
      PartsOfFour("pair_hour:", "pair_hour", hour, p, ":token0", "token0", rest);
      OneVolume(d, decode, n, "pair_hour_data", p + "-" + hour, Sq.Update, "hourly_volume_token_0");
    }
    if d.key == "pair_hour:" + hour + ":" + p + ":token1" + rest {
      PartsOfFour("pair_hour:", "pair_hour", hour, p, ":token1", "token1", rest);
      OneVolume(d, decode, n, "pair_hour_data", p + "-" + hour, Sq.Update, "hourly_volume_token_1");
    }
  }

  /** The volumes and the supply of a pair. */
  lemma PairVolumes(d: Delta, decode: Decode, n: nat, p: string, rest: string)
    requires ':' !in p && (rest == "" || rest[0] == ':')
    ensures d.key == "pair:" + p + ":usd" + rest ==>
              Emitted([VolumeDelta(d)], decode, n) ==
              [Sq.Change("pair", p, n, d.ordinal, d.operation,
                         [Sq.Field("volume_usd", d.newValue, d.oldValue)])]
    ensures d.key == "pair:" + p + ":token0" + rest ==>
              Emitted([VolumeDelta(d)], decode, n) ==
              [Sq.Change("pair", p, n, d.ordinal, d.operation,
                         [Sq.Field("volume_token0", d.newValue, d.oldValue)])]
    ensures d.key == "pair:" + p + ":token1" + rest ==>
              Emitted([VolumeDelta(d)], decode, n) ==
              [Sq.Change("pair", p, n, d.ordinal, d.operation,
                         [Sq.Field("volume_token1", d.newValue, d.oldValue)])]
    ensures d.key == "pair:" + p + ":total_supply" + rest ==>
              Emitted([VolumeDelta(d)], decode, n) ==
              [Sq.Change("pair", p, n, d.ordinal, d.operation,
                         [Sq.Field("total_supply", d.newValue, d.oldValue)])]
  {
    hide Split, Emitted;
    if d.key == "pair:" + p + ":usd" + rest {
      PartsOfThree("pair:", "pair", p, ":usd", "usd", rest);
      OneVolume(d, decode, n, "pair", p, d.operation, "volume_usd");
    }
    if d.key == "pair:" + p + ":token0" + rest {
      PartsOfThree("pair:", "pair", p, ":token0", "token0", rest);
      OneVolume(d, decode, n, "pair", p, d.operation, "volume_token0");
    }
    if d.key == "pair:" + p + ":token1" + rest {
      PartsOfThree("pair:", "pair", p, ":token1", "token1", rest);
      OneVolume(d, decode, n, "pair", p, d.operation, "volume_token1");
    }
    if d.key == "pair:" + p + ":total_supply" + rest {
      PartsOfThree("pair:", "pair", p, ":total_supply", "total_supply", rest);
      OneVolume(d, decode, n, "pair", p, d.operation, "total_supply");
    }
  }

  /** The volume of a token on a day. */
  lemma TokenDayVolumes(d: Delta, decode: Decode, n: nat, day: string, t: string, rest: string)
    requires ':' !in day && ':' !in t && (rest == "" || rest[0] == ':')
    requires d.operation != Sq.Delete
    ensures d.key == "token_day:" + day + ":" + t + ":usd" + rest ==>
              Emitted([VolumeDelta(d)], decode, n) ==
              [Sq.Change("token_day_data", t + "-" + day, n, d.ordinal, d.operation,
                         [Sq.Field("daily_volume_usd", d.newValue, d.oldValue)])]
  {
    hide Split, Emitted;
    if d.key == "token_day:" + day + ":" + t + ":usd" + rest {
      PartsOfFour("token_day:", "token_day", day, t, ":usd", "usd", rest);
      OneVolume(d, decode, n, "token_day_data", t + "-" + day, d.operation, "daily_volume_usd");
    }
  }

  /** The volumes and the liquidity of a token. */
  lemma TokenVolumes(d: Delta, decode: Decode, n: nat, t: string, rest: string)
    requires ':' !in t && (rest == "" || rest[0] == ':')
    ensures d.key == "token:" + t + ":trade" + rest ==>
              Emitted([VolumeDelta(d)], decode, n) ==
              [Sq.Change("token", t, n, d.ordinal, d.operation,
                         [Sq.Field("trade_volume", d.newValue, d.oldValue)])]
    ensures d.key == "token:" + t + ":trade_usd" + rest ==>
              Emitted([VolumeDelta(d)], decode, n) ==
              [Sq.Change("token", t, n, d.ordinal, d.operation,
                         [Sq.Field("trade_volume_usd", d.newValue, d.oldValue)])]
    ensures d.key == "token:" + t + ":liquidity" + rest ==>
              Emitted([VolumeDelta(d)], decode, n) ==
              [Sq.Change("token", t, n, d.ordinal, d.operation,
                         [Sq.Field("liquidity", d.newValue, d.oldValue)])]
  {
    hide Split, Emitted;
    if d.key == "token:" + t + ":trade" + rest {
      PartsOfThree("token:", "token", t, ":trade", "trade", rest);
      OneVolume(d, decode, n, "token", t, d.operation, "trade_volume");
    }
    if d.key == "token:" + t + ":trade_usd" + rest {
      PartsOfThree("token:", "token", t, ":trade_usd", "trade_usd", rest);
      OneVolume(d, decode, n, "token", t, d.operation, "trade_volume_usd");
    }
    if d.key == "token:" + t + ":liquidity" + rest {
      PartsOfThree("token:", "token", t, ":liquidity", "liquidity", rest);
      OneVolume(d, decode, n, "token", t, d.operation, "liquidity");
    }
  }

  /** The volumes and the liquidity of the whole exchange. */
  lemma FactoryVolumes(d: Delta, decode: Decode, n: nat, rest: string)
    requires rest == "" || rest[0] == ':'
    ensures d.key == "global:usd" + rest ==>
              Emitted([VolumeDelta(d)], decode, n) ==
              [Sq.Change("pancake_factory", "ca143ce32fe78f1f7019d7d551a6402fc5350c73", n,
                         d.ordinal, Sq.Update,
                         [Sq.Field("total_volume_usd", d.newValue, d.oldValue)])]
    ensures d.key == "global:bnb" + rest ==>
              Emitted([VolumeDelta(d)], decode, n) ==
              [Sq.Change("pancake_factory", "ca143ce32fe78f1f7019d7d551a6402fc5350c73", n,
                         d.ordinal, Sq.Update,
                         [Sq.Field("total_volume_bnb", d.newValue, d.oldValue)])]
    ensures d.key == "global:liquidity_usd" + rest ==>
              Emitted([VolumeDelta(d)], decode, n) ==
              [Sq.Change("pancake_factory", "ca143ce32fe78f1f7019d7d551a6402fc5350c73", n,
                         d.ordinal, Sq.Update,
                         [Sq.Field("total_liquidity_usd", d.newValue, d.oldValue)])]
  {
    hide Split, Emitted;
    FactoryTexts();
    if d.key == "global:usd" + rest {
      PartsOfTwo("global:usd", "global", "usd", rest);
      OneVolume(d, decode, n, "pancake_factory", "ca143ce32fe78f1f7019d7d551a6402fc5350c73",
        Sq.Update, "total_volume_usd");
    }
    if d.key == "global:bnb" + rest {
      PartsOfTwo("global:bnb", "global", "bnb", rest);
      OneVolume(d, decode, n, "pancake_factory", "ca143ce32fe78f1f7019d7d551a6402fc5350c73",
        Sq.Update, "total_volume_bnb");
    }
    if d.key == "global:liquidity_usd" + rest {
      PartsOfTwo("global:liquidity_usd", "global", "liquidity_usd", rest);
      OneVolume(d, decode, n, "pancake_factory", "ca143ce32fe78f1f7019d7d551a6402fc5350c73",
        Sq.Update, "total_liquidity_usd");
    }
  }

  /** The volumes of a day. */
  lemma DayVolumes(d: Delta, decode: Decode, n: nat, day: string, rest: string)
    requires ':' !in day && (rest == "" || rest[0] == ':')
    requires d.operation != Sq.Delete
    ensures d.key == "global_day:" + day + ":usd" + rest ==>
              Emitted([VolumeDelta(d)], decode, n) ==
              [Sq.Change("pancake_day_data", day, n, d.ordinal, d.operation,
                         [Sq.Field("daily_volume_usd", d.newValue, d.oldValue)])]
    ensures d.key == "global_day:" + day + ":bnb" + rest ==>
              Emitted([VolumeDelta(d)], decode, n) ==
              [Sq.Change("pancake_day_data", day, n, d.ordinal, Sq.Update,
                         [Sq.Field("daily_volume_bnb", d.newValue, d.oldValue)])]
  {
    hide Split, Emitted;
    if d.key == "global_day:" + day + ":usd" + rest {
      PartsOfThree("global_day:", "global_day", day, ":usd", "usd", rest);
      OneVolume(d, decode, n, "pancake_day_data", day, d.operation, "daily_volume_usd");
    }
    if d.key == "global_day:" + day + ":bnb" + rest {
      PartsOfThree("global_day:", "global_day", day, ":bnb", "bnb", rest);
      OneVolume(d, decode, n, "pancake_day_data", day, Sq.Update, "daily_volume_bnb");
    }
  }

  lemma IsPairDayVolumes(d: Delta) returns (a: string, b: string, rest: string)
    requires RouteVolume(d).Returned? && RouteVolume(d).value.Some? && Split(d.key, ':')[0] == "pair_day"
    ensures d.operation != Sq.Delete
    ensures ':' !in a && ':' !in b && Ends(rest)
    ensures || d.key == "pair_day:" + a + ":" + b + ":usd" + rest
            || d.key == "pair_day:" + a + ":" + b + ":token0" + rest
            || d.key == "pair_day:" + a + ":" + b + ":token1" + rest
  {
    hide Split;
    var parts := Split(d.key, ':');
    a, b := parts[1], parts[2];
    rest := UnsplitFour(d.key);
    JoinFour("pair_day:", "pair_day", a, b, ":usd", "usd", rest);
    JoinFour("pair_day:", "pair_day", a, b, ":token0", "token0", rest);
    JoinFour("pair_day:", "pair_day", a, b, ":token1", "token1", rest);
  }

  lemma IsPairHourVolumes(d: Delta) returns (a: string, b: string, rest: string)
    requires RouteVolume(d).Returned? && RouteVolume(d).value.Some? && Split(d.key, ':')[0] == "pair_hour"
    ensures d.operation != Sq.Delete
    ensures ':' !in a && ':' !in b && Ends(rest)
    ensures || d.key == "pair_hour:" + a + ":" + b + ":usd" + rest
            || d.key == "pair_hour:" + a + ":" + b + ":token0" + rest
            || d.key == "pair_hour:" + a + ":" + b + ":token1" + rest
  {
    hide Split;
    var parts := Split(d.key, ':');
    a, b := parts[1], parts[2];
    rest := UnsplitFour(d.key);
    JoinFour("pair_hour:", "pair_hour", a, b, ":usd", "usd", rest);
    JoinFour("pair_hour:", "pair_hour", a, b, ":token0", "token0", rest);
    JoinFour("pair_hour:", "pair_hour", a, b, ":token1", "token1", rest);
  }

  lemma IsPairVolumes(d: Delta) returns (a: string, b: string, rest: string)
    requires RouteVolume(d).Returned? && RouteVolume(d).value.Some? && Split(d.key, ':')[0] == "pair"
    ensures ':' !in a && ':' !in b && Ends(rest)
    ensures || d.key == "pair:" + a + ":usd" + rest
            || d.key == "pair:" + a + ":token0" + rest
            || d.key == "pair:" + a + ":token1" + rest
            || d.key == "pair:" + a + ":total_supply" + rest
  {
    hide Split;
    var parts := Split(d.key, ':');
    a, b := parts[1], "";
    rest := UnsplitThree(d.key);
    JoinThree("pair:", "pair", a, ":usd", "usd", rest);
    JoinThree("pair:", "pair", a, ":token0", "token0", rest);
    JoinThree("pair:", "pair", a, ":token1", "token1", rest);
    JoinThree("pair:", "pair", a, ":total_supply", "total_supply", rest);
  }

  lemma IsTokenDayVolumes(d: Delta) returns (a: string, b: string, rest: string)
    requires RouteVolume(d).Returned? && RouteVolume(d).value.Some? && Split(d.key, ':')[0] == "token_day"
    ensures d.operation != Sq.Delete
    ensures ':' !in a && ':' !in b && Ends(rest)
    ensures d.key == "token_day:" + a + ":" + b + ":usd" + rest
  {
    hide Split;
    var parts := Split(d.key, ':');
    a, b := parts[1], parts[2];
    rest := UnsplitFour(d.key);
    JoinFour("token_day:", "token_day", a, b, ":usd", "usd", rest);
  }

  lemma IsTokenVolumes(d: Delta) returns (a: string, b: string, rest: string)
    requires RouteVolume(d).Returned? && RouteVolume(d).value.Some? && Split(d.key, ':')[0] == "token"
    ensures ':' !in a && ':' !in b && Ends(rest)
    ensures || d.key == "token:" + a + ":trade" + rest
            || d.key == "token:" + a + ":trade_usd" + rest
            || d.key == "token:" + a + ":liquidity" + rest
  {
    hide Split;
    var parts := Split(d.key, ':');
    a, b := parts[1], "";
    rest := UnsplitThree(d.key);
    JoinThree("token:", "token", a, ":trade", "trade", rest);
    JoinThree("token:", "token", a, ":trade_usd", "trade_usd", rest);
    JoinThree("token:", "token", a, ":liquidity", "liquidity", rest);
  }

  lemma IsFactoryVolumes(d: Delta) returns (a: string, b: string, rest: string)
    requires RouteVolume(d).Returned? && RouteVolume(d).value.Some? && Split(d.key, ':')[0] == "global"
    ensures ':' !in a && ':' !in b && Ends(rest)
    ensures || d.key == "global:usd" + rest
            || d.key == "global:bnb" + rest
            || d.key == "global:liquidity_usd" + rest
  {
    hide Split;
    FactoryTexts();
    var parts := Split(d.key, ':');
    a, b := "", "";
    rest := UnsplitTwo(d.key);
    JoinTwo("global:usd", "global", "usd", rest);
    JoinTwo("global:bnb", "global", "bnb", rest);
    JoinTwo("global:liquidity_usd", "global", "liquidity_usd", rest);
  }

  lemma IsDayVolumes(d: Delta) returns (a: string, b: string, rest: string)
    requires RouteVolume(d).Returned? && RouteVolume(d).value.Some? && Split(d.key, ':')[0] == "global_day"
    ensures d.operation != Sq.Delete
    ensures ':' !in a && ':' !in b && Ends(rest)
    ensures || d.key == "global_day:" + a + ":usd" + rest
            || d.key == "global_day:" + a + ":bnb" + rest
  {
    hide Split;
    var parts := Split(d.key, ':');
    a, b := parts[1], "";
    rest := UnsplitThree(d.key);
    JoinThree("global_day:", "global_day", a, ":usd", "usd", rest);
    JoinThree("global_day:", "global_day", a, ":bnb", "bnb", rest);
  }

  /** Every other key of a volume delta emits nothing. */
  lemma VolumesOnly(d: Delta, decode: Decode, n: nat) returns (a: string, b: string, rest: string)
    requires Emitted([VolumeDelta(d)], decode, n) != []
    ensures ':' !in a && ':' !in b && (rest == "" || rest[0] == ':')
    ensures || (d.operation != Sq.Delete && d.key == "pair_day:" + a + ":" + b + ":usd" + rest)
            || (d.operation != Sq.Delete && d.key == "pair_day:" + a + ":" + b + ":token0" + rest)
            || (d.operation != Sq.Delete && d.key == "pair_day:" + a + ":" + b + ":token1" + rest)
            || (d.operation != Sq.Delete && d.key == "pair_hour:" + a + ":" + b + ":usd" + rest)
            || (d.operation != Sq.Delete && d.key == "pair_hour:" + a + ":" + b + ":token0" + rest)
            || (d.operation != Sq.Delete && d.key == "pair_hour:" + a + ":" + b + ":token1" + rest)
            || d.key == "pair:" + a + ":usd" + rest
            || d.key == "pair:" + a + ":token0" + rest
            || d.key == "pair:" + a + ":token1" + rest
            || d.key == "pair:" + a + ":total_supply" + rest
            || (d.operation != Sq.Delete && d.key == "token_day:" + a + ":" + b + ":usd" + rest)
            || d.key == "token:" + a + ":trade" + rest
            || d.key == "token:" + a + ":trade_usd" + rest
            || d.key == "token:" + a + ":liquidity" + rest
            || d.key == "global:usd" + rest
            || d.key == "global:bnb" + rest
            || d.key == "global:liquidity_usd" + rest
            || (d.operation != Sq.Delete && d.key == "global_day:" + a + ":usd" + rest)
            || (d.operation != Sq.Delete && d.key == "global_day:" + a + ":bnb" + rest)
  {
    hide Split;
    EmittedOne(VolumeDelta(d), decode, n);
    var head := Split(d.key, ':')[0];
    if head == "pair_day" {
      a, b, rest := IsPairDayVolumes(d);
    } else if head == "pair_hour" {
      a, b, rest := IsPairHourVolumes(d);
    } else if head == "pair" {
      a, b, rest := IsPairVolumes(d);
    } else if head == "token_day" {
      a, b, rest := IsTokenDayVolumes(d);
    } else if head == "token" {
      a, b, rest := IsTokenVolumes(d);
    } else if head == "global" {
      a, b, rest := IsFactoryVolumes(d);
    } else {
      a, b, rest := IsDayVolumes(d);
    }
  }

  lemma VolumePanics(d: Delta)
    ensures var parts := Split(d.key, ':');
            RouteVolume(d).Returned? <==>
            && (parts[0] == "pair_day" && d.operation != Sq.Delete ==> |parts| > 3)
            && (parts[0] == "pair_hour" && d.operation != Sq.Delete ==> |parts| > 3)
            && (parts[0] == "pair" ==> |parts| > 2)
            && (parts[0] == "token_day" && d.operation != Sq.Delete ==> |parts| > 3)
            && (parts[0] == "token" ==> |parts| > 2)
            && (parts[0] == "global" ==> |parts| > 1)
            && (parts[0] == "global_day" && d.operation != Sq.Delete ==> |parts| > 2)
  {
    hide Split;
  }

  /** A key that ends before the parts its handler reads panics, and no other does. */
  lemma VolumesPanicIff(d: Delta, decode: Decode)
    ensures NoPanic([VolumeDelta(d)], decode) <==>
            && (Leads("pair_day", d.key) && d.operation != Sq.Delete ==> multiset(d.key)[':'] >= 3)
            && (Leads("pair_hour", d.key) && d.operation != Sq.Delete ==> multiset(d.key)[':'] >= 3)
            && (Leads("pair", d.key) ==> multiset(d.key)[':'] >= 2)
            && (Leads("token_day", d.key) && d.operation != Sq.Delete ==> multiset(d.key)[':'] >= 3)
            && (Leads("token", d.key) ==> multiset(d.key)[':'] >= 2)
            && (Leads("global", d.key) ==> multiset(d.key)[':'] >= 1)
            && (Leads("global_day", d.key) && d.operation != Sq.Delete ==> multiset(d.key)[':'] >= 2)
  {
    hide Split, NoPanic, RouteVolume, Leads;
    NoPanicOne(VolumeDelta(d), decode);
    VolumePanics(d);
    PartsAreColons(d.key);
    FirstPart(d.key, "pair_day");
    FirstPart(d.key, "pair_hour");
    FirstPart(d.key, "pair");
    FirstPart(d.key, "token_day");
    FirstPart(d.key, "token");
    FirstPart(d.key, "global");
    FirstPart(d.key, "global_day");
  }

  // ---------------------------------------------------------------------
  // Reserves
  // ---------------------------------------------------------------------

  lemma OneReserve(d: Delta, decode: Decode, n: nat, table: string, pk: string, op: Sq.Operation, column: string)
    requires RouteReserve(d) == Returned(Some(Routed(table, pk, op, [Sq.Field(column, d.newValue, d.oldValue)])))
    ensures Emitted([ReserveDelta(d)], decode, n) ==
            [Sq.Change(table, pk, n, d.ordinal, op, [Sq.Field(column, d.newValue, d.oldValue)])]
  {
    hide RouteReserve;
    EmittedOne(ReserveDelta(d), decode, n);
  }

  /** The reserves of a pair on a day. */
  lemma PairDayReserves(d: Delta, decode: Decode, n: nat, day: string, p: string, rest: string)
    requires ':' !in day && ':' !in p && (rest == "" || rest[0] == ':')
    requires d.operation != Sq.Delete
    ensures d.key == "pair_day:" + day + ":" + p + ":reserve0" + rest ==>
              Emitted([ReserveDelta(d)], decode, n) ==
              [Sq.Change("pair_day_data", p + "-" + day, n, d.ordinal, d.operation,
                         [Sq.Field("reserve_0", d.newValue, d.oldValue)])]
    ensures d.key == "pair_day:" + day + ":" + p + ":reserve1" + rest ==>
              Emitted([ReserveDelta(d)], decode, n) ==
              [Sq.Change("pair_day_data", p + "-" + day, n, d.ordinal, Sq.Update,
                         [Sq.Field("reserve_1", d.newValue, d.oldValue)])]
  {
    hide Split, Emitted;
    if d.key == "pair_day:" + day + ":" + p + ":reserve0" + rest {
      PartsOfFour("pair_day:", "pair_day", day, p, ":reserve0", "reserve0", rest);
      OneReserve(d, decode, n, "pair_day_data", p + "-" + day, d.operation, "reserve_0");
    }
    if d.key == "pair_day:" + day + ":" + p + ":reserve1" + rest {
      PartsOfFour("pair_day:", "pair_day", day, p, ":reserve1", "reserve1", rest);
      OneReserve(d, decode, n, "pair_day_data", p + "-" + day, Sq.Update, "reserve_1");
    }
  }

  /** The reserves of a pair in an hour. */
  lemma PairHourReserves(d: Delta, decode: Decode, n: nat, hour: string, p: string, rest: string)
    requires ':' !in hour && ':' !in p && (rest == "" || rest[0] == ':')
    requires d.operation != Sq.Delete
    ensures d.key == "pair_hour:" + hour + ":" + p + ":reserve0" + rest ==>
              Emitted([ReserveDelta(d)], decode, n) ==
              [Sq.Change("pair_hour_data", p + "-" + hour, n, d.ordinal, d.operation,
                         [Sq.Field("reserve_0", d.newValue, d.oldValue)])]
    ensures d.key == "pair_hour:" + hour + ":" + p + ":reserve1" + rest ==>
              Emitted([ReserveDelta(d)], decode, n) ==
              [Sq.Change("pair_hour_data", p + "-" + hour, n, d.ordinal, Sq.Update,
                         [Sq.Field("reserve_1", d.newValue, d.oldValue)])]
  {
    hide Split, Emitted;
    if d.key == "pair_hour:" + hour + ":" + p + ":reserve0" + rest {
      PartsOfFour("pair_hour:", "pair_hour", hour, p, ":reserve0", "reserve0", rest);
      OneReserve(d, decode, n, "pair_hour_data", p + "-" + hour, d.operation, "reserve_0");
    }
    if d.key == "pair_hour:" + hour + ":" + p + ":reserve1" + rest {
      PartsOfFour("pair_hour:", "pair_hour", hour, p, ":reserve1", "reserve1", rest);
      OneReserve(d, decode, n, "pair_hour_data", p + "-" + hour, Sq.Update, "reserve_1");
    }
  }

  /** The prices of the tokens of a pair. */
  lemma Prices(d: Delta, decode: Decode, n: nat, p: string, t: string, rest: string)
    requires ':' !in p && ':' !in t && (rest == "" || rest[0] == ':')
    ensures d.key == "price:" + p + ":" + t + ":token0" + rest ==>
              Emitted([ReserveDelta(d)], decode, n) ==
              [Sq.Change("pair", p, n, d.ordinal, d.operation,
                         [Sq.Field("token_0_price", d.newValue, d.oldValue)])]
    ensures d.key == "price:" + p + ":" + t + ":token1" + rest ==>
              Emitted([ReserveDelta(d)], decode, n) ==
              [Sq.Change("pair", p, n, d.ordinal, d.operation,
                         [Sq.Field("token_1_price", d.newValue, d.oldValue)])]
  {
    hide Split, Emitted;
    if d.key == "price:" + p + ":" + t + ":token0" + rest {
      PartsOfFour("price:", "price", p, t, ":token0", "token0", rest);
      OneReserve(d, decode, n, "pair", p, d.operation, "token_0_price");
    }
    if d.key == "price:" + p + ":" + t + ":token1" + rest {
      PartsOfFour("price:", "price", p, t, ":token1", "token1", rest);
      OneReserve(d, decode, n, "pair", p, d.operation, "token_1_price");
    }
  }

  /** The reserves of a pair. */
  lemma PairReserves(d: Delta, decode: Decode, n: nat, p: string, t: string, rest: string)
    requires ':' !in p && ':' !in t && (rest == "" || rest[0] == ':')
    ensures d.key == "reserve:" + p + ":" + t + ":reserve0" + rest ==>
              Emitted([ReserveDelta(d)], decode, n) ==
              [Sq.Change("pair", p, n, d.ordinal, d.operation,
                         [Sq.Field("reserve_0", d.newValue, d.oldValue)])]
    ensures d.key == "reserve:" + p + ":" + t + ":reserve1" + rest ==>
              Emitted([ReserveDelta(d)], decode, n) ==
              [Sq.Change("pair", p, n, d.ordinal, d.operation,
                         [Sq.Field("reserve_1", d.newValue, d.oldValue)])]
  {
    hide Split, Emitted;
    if d.key == "reserve:" + p + ":" + t + ":reserve0" + rest {
      PartsOfFour("reserve:", "reserve", p, t, ":reserve0", "reserve0", rest);
      OneReserve(d, decode, n, "pair", p, d.operation, "reserve_0");
    }
    if d.key == "reserve:" + p + ":" + t + ":reserve1" + rest {
      PartsOfFour("reserve:", "reserve", p, t, ":reserve1", "reserve1", rest);
      OneReserve(d, decode, n, "pair", p, d.operation, "reserve_1");
    }
  }

  lemma IsPairDayReserves(d: Delta) returns (a: string, b: string, rest: string)
    requires RouteReserve(d).Returned? && RouteReserve(d).value.Some? && Split(d.key, ':')[0] == "pair_day"
    ensures d.operation != Sq.Delete
    ensures ':' !in a && ':' !in b && Ends(rest)
    ensures || d.key == "pair_day:" + a + ":" + b + ":reserve0" + rest
            || d.key == "pair_day:" + a + ":" + b + ":reserve1" + rest
  {
    hide Split;
    var parts := Split(d.key, ':');
    a, b := parts[1], parts[2];
    rest := UnsplitFour(d.key);
    JoinFour("pair_day:", "pair_day", a, b, ":reserve0", "reserve0", rest);
    JoinFour("pair_day:", "pair_day", a, b, ":reserve1", "reserve1", rest);
  }

  lemma IsPairHourReserves(d: Delta) returns (a: string, b: string, rest: string)
    requires RouteReserve(d).Returned? && RouteReserve(d).value.Some? && Split(d.key, ':')[0] == "pair_hour"
    ensures d.operation != Sq.Delete
    ensures ':' !in a && ':' !in b && Ends(rest)
    ensures || d.key == "pair_hour:" + a + ":" + b + ":reserve0" + rest
            || d.key == "pair_hour:" + a + ":" + b + ":reserve1" + rest
  {
    hide Split;
    var parts := Split(d.key, ':');
    a, b := parts[1], parts[2];
    rest := UnsplitFour(d.key);
    JoinFour("pair_hour:", "pair_hour", a, b, ":reserve0", "reserve0", rest);
    JoinFour("pair_hour:", "pair_hour", a, b, ":reserve1", "reserve1", rest);
  }

  lemma IsPrices(d: Delta) returns (a: string, b: string, rest: string)
    requires RouteReserve(d).Returned? && RouteReserve(d).value.Some? && Split(d.key, ':')[0] == "price"
    ensures ':' !in a && ':' !in b && Ends(rest)
    ensures || d.key == "price:" + a + ":" + b + ":token0" + rest
            || d.key == "price:" + a + ":" + b + ":token1" + rest
  {
    hide Split;
    var parts := Split(d.key, ':');
    a, b := parts[1], parts[2];
    rest := UnsplitFour(d.key);
    JoinFour("price:", "price", a, b, ":token0", "token0", rest);
    JoinFour("price:", "price", a, b, ":token1", "token1", rest);
  }

  lemma IsPairReserves(d: Delta) returns (a: string, b: string, rest: string)
    requires RouteReserve(d).Returned? && RouteReserve(d).value.Some? && Split(d.key, ':')[0] == "reserve"
    ensures ':' !in a && ':' !in b && Ends(rest)
    ensures || d.key == "reserve:" + a + ":" + b + ":reserve0" + rest
            || d.key == "reserve:" + a + ":" + b + ":reserve1" + rest
  {
    hide Split;
    var parts := Split(d.key, ':');
    a, b := parts[1], parts[2];
    rest := UnsplitFour(d.key);
    JoinFour("reserve:", "reserve", a, b, ":reserve0", "reserve0", rest);
    JoinFour("reserve:", "reserve", a, b, ":reserve1", "reserve1", rest);
  }

  /** Every other key of a reserve delta emits nothing. */
  lemma ReservesOnly(d: Delta, decode: Decode, n: nat) returns (a: string, b: string, rest: string)
    requires Emitted([ReserveDelta(d)], decode, n) != []
    ensures ':' !in a && ':' !in b && (rest == "" || rest[0] == ':')
    ensures || (d.operation != Sq.Delete && d.key == "pair_day:" + a + ":" + b + ":reserve0" + rest)
            || (d.operation != Sq.Delete && d.key == "pair_day:" + a + ":" + b + ":reserve1" + rest)
            || (d.operation != Sq.Delete && d.key == "pair_hour:" + a + ":" + b + ":reserve0" + rest)
            || (d.operation != Sq.Delete && d.key == "pair_hour:" + a + ":" + b + ":reserve1" + rest)
            || d.key == "price:" + a + ":" + b + ":token0" + rest
            || d.key == "price:" + a + ":" + b + ":token1" + rest
            || d.key == "reserve:" + a + ":" + b + ":reserve0" + rest
            || d.key == "reserve:" + a + ":" + b + ":reserve1" + rest
  {
    hide Split;
    EmittedOne(ReserveDelta(d), decode, n);
    var head := Split(d.key, ':')[0];
    if head == "pair_day" {
      a, b, rest := IsPairDayReserves(d);
    } else if head == "pair_hour" {
      a, b, rest := IsPairHourReserves(d);
    } else if head == "price" {
      a, b, rest := IsPrices(d);
    } else {
      a, b, rest := IsPairReserves(d);
    }
  }

  lemma ReservePanics(d: Delta)
    ensures var parts := Split(d.key, ':');
            RouteReserve(d).Returned? <==>
            && (parts[0] == "pair_day" && d.operation != Sq.Delete ==> |parts| > 3)
            && (parts[0] == "pair_hour" && d.operation != Sq.Delete ==> |parts| > 3)
            && (parts[0] == "price" ==> |parts| > 3)
            && (parts[0] == "reserve" ==> |parts| > 3)
  {
    hide Split;
  }

  /** A key that ends before the parts its handler reads panics, and no other does. */
  lemma ReservesPanicIff(d: Delta, decode: Decode)
    ensures NoPanic([ReserveDelta(d)], decode) <==>
            && (Leads("pair_day", d.key) && d.operation != Sq.Delete ==> multiset(d.key)[':'] >= 3)
            && (Leads("pair_hour", d.key) && d.operation != Sq.Delete ==> multiset(d.key)[':'] >= 3)
            && (Leads("price", d.key) ==> multiset(d.key)[':'] >= 3)
            && (Leads("reserve", d.key) ==> multiset(d.key)[':'] >= 3)
  {
    hide Split, NoPanic, RouteReserve, Leads;
    NoPanicOne(ReserveDelta(d), decode);
    ReservePanics(d);
    PartsAreColons(d.key);
    FirstPart(d.key, "pair_day");
    FirstPart(d.key, "pair_hour");
    FirstPart(d.key, "price");
    FirstPart(d.key, "reserve");
  }

  // ---------------------------------------------------------------------
  // The counters reach their columns
  // ---------------------------------------------------------------------

  lemma DayHasNoColon(day: int)
    ensures ':' !in T.DayText(day)
  {
    var m := if day < 0 then -day else day;
    DecimalParses(m);
    assert forall c | c in Decimal(m) :: IsDigit(c);
  }

  predicate PlainAddress(k: T.Counter) {
    match k
    case TokenTx(t) => ':' !in t
    case PairTx(p) => ':' !in p
    case Swaps(p) => ':' !in p
    case Burns(p) => ':' !in p
    case Mints(p) => ':' !in p
    case _ => true
  }

  /** A delta of a counter changes the total of the row the counter is about, and
      of no other; swap, burn and mint counts are shown nowhere. */
  lemma CounterReachesColumn(k: T.Counter, d: Delta, decode: Decode, n: nat)
    requires d.key == T.Key(k) && PlainAddress(k)
    ensures k.PairCount? ==>
              Emitted([TotalDelta(d)], decode, n) ==
              [Sq.Change("pancake_factory", "ca143ce32fe78f1f7019d7d551a6402fc5350c73", n, d.ordinal, d.operation,
                         [Sq.Field("total_pairs", d.newValue, d.oldValue)])]
    ensures k.AllTx? ==>
              Emitted([TotalDelta(d)], decode, n) ==
              [Sq.Change("pancake_factory", "ca143ce32fe78f1f7019d7d551a6402fc5350c73", n, d.ordinal, Sq.Update,
                         [Sq.Field("total_transactions", d.newValue, d.oldValue)])]
    ensures k.DayTx? ==>
              Emitted([TotalDelta(d)], decode, n) ==
              if d.operation == Sq.Delete then [] else
              [Sq.Change("pancake_day_data", T.DayText(k.day), n, d.ordinal, Sq.Update,
                         [Sq.Field("total_transactions", d.newValue, d.oldValue)])]
    ensures k.TokenTx? ==>
              Emitted([TotalDelta(d)], decode, n) ==
              [Sq.Change("token", k.token, n, d.ordinal, d.operation,
                         [Sq.Field("total_transactions", d.newValue, d.oldValue)])]
    ensures k.PairTx? ==>
              Emitted([TotalDelta(d)], decode, n) ==
              [Sq.Change("pair", k.pair, n, d.ordinal, d.operation,
                         [Sq.Field("total_transactions", d.newValue, d.oldValue)])]
    ensures k.Swaps? || k.Burns? || k.Mints? ==> Emitted([TotalDelta(d)], decode, n) == []
  {
    hide Split, Emitted;
    NoRest(d.key);
    match k
    case PairCount => FactoryTotals(d, decode, n, "");
    case AllTx => FactoryTotals(d, decode, n, "");
    case DayTx(day) => DayCounter(day, d, decode, n);
    case TokenTx(t) => TokenTotals(d, decode, n, t, "");
    case PairTx(p) => PairTotals(d, decode, n, p, "");
    case Swaps(p) => KindCounter(d, decode, n, p, ":swap_count", "swap_count");
    case Burns(p) => KindCounter(d, decode, n, p, ":burn_count", "burn_count");
    case Mints(p) => KindCounter(d, decode, n, p, ":mint_count", "mint_count");
  }

  lemma NoRest(s: string)
    ensures s + "" == s
  {
  }

  lemma DayCounter(day: int, d: Delta, decode: Decode, n: nat)
    requires d.key == "global_day:" + T.DayText(day) + ":transaction_count"
    ensures Emitted([TotalDelta(d)], decode, n) ==
            if d.operation == Sq.Delete then [] else
            [Sq.Change("pancake_day_data", T.DayText(day), n, d.ordinal, Sq.Update,
                       [Sq.Field("total_transactions", d.newValue, d.oldValue)])]
  {
    hide Split, Emitted;
    DayHasNoColon(day);
    NoRest(d.key);
    if d.operation == Sq.Delete {
      PartsOfThree("global_day:", "global_day", T.DayText(day), ":transaction_count", "transaction_count", "");
      EmittedOne(TotalDelta(d), decode, n);
    } else {
      DayTotals(d, decode, n, T.DayText(day), "");
    }
  }

  lemma KindCounter(d: Delta, decode: Decode, n: nat, p: string, tail: string, kind: string)
    requires d.key == "pair:" + p + tail && tail == ":" + kind && ':' !in p && ':' !in kind
    requires kind != "transaction_count"
    ensures Emitted([TotalDelta(d)], decode, n) == []
  {
    hide Split;
    NoRest(d.key);
    PartsOfThree("pair:", "pair", p, tail, kind, "");
    EmittedOne(TotalDelta(d), decode, n);
  }
}
