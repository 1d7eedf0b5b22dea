/** Which row and column each store delta of a block changes. */
module Routing {
  import opened BlockRanges
  import opened Prelude
  import Sq = Squash

  const PANCAKE_FACTORY := "ca143ce32fe78f1f7019d7d551a6402fc5350c73"

  datatype Delta = Delta(ordinal: nat, operation: Sq.Operation, key: string, oldValue: string, newValue: string)

  /** What a handler makes of an item: the row, the operation and the fields. */
  datatype Routed = Routed(table: string, pk: string, op: Sq.Operation, fields: seq<Sq.Field>)

  /** A handler emits a change or none, or panics. */
  type Handled = Outcome<Option<Routed>>

  function Nothing(): Handled {
    Returned(None)
  }

  /** One column changes from the old value of the delta to its new one. */
  function To(table: string, pk: string, op: Sq.Operation, column: string, d: Delta): Handled {
    Returned(Some(Routed(table, pk, op, [Sq.Field(column, d.newValue, d.oldValue)])))
  }

  /** A handler that reads parts[n] panics on a key of fewer parts. */
  predicate Short(parts: seq<string>, n: nat) {
    |parts| <= n
  }

  function RouteTotal(d: Delta): Handled {
    var parts := Split(d.key, ':');
    if parts[0] == "pair" then
      if Short(parts, 2) then Panicked
      else if parts[2] == "transaction_count" then To("pair", parts[1], d.operation, "total_transactions", d)
      else Nothing()
    else if parts[0] == "token" then
      if Short(parts, 2) then Panicked
      else if parts[2] == "transaction_count" then To("token", parts[1], d.operation, "total_transactions", d)
      else Nothing()
    else if parts[0] == "global" then
      if Short(parts, 1) then Panicked
      else if parts[1] == "transaction_count" then
        To("pancake_factory", PANCAKE_FACTORY, Sq.Update, "total_transactions", d)
      else if parts[1] == "pair_count" then To("pancake_factory", PANCAKE_FACTORY, d.operation, "total_pairs", d)
      else Nothing()
    else if parts[0] == "global_day" then
      if d.operation == Sq.Delete then Nothing()
      else if Short(parts, 2) then Panicked
      else if parts[2] == "transaction_count" then
        To("pancake_day_data", parts[1], Sq.Update, "total_transactions", d)
      else Nothing()
    else Nothing()
  }

  function RouteVolume(d: Delta): Handled {
    var parts := Split(d.key, ':');
    if parts[0] == "pair_day" then
      if d.operation == Sq.Delete then Nothing()
      else if Short(parts, 3) then Panicked
      else if parts[3] == "usd" then
        To("pair_day_data", parts[2] + "-" + parts[1], Sq.Update, "daily_volume_usd", d)
      else if parts[3] == "token0" then
        To("pair_day_data", parts[2] + "-" + parts[1], Sq.Update, "daily_volume_token_0", d)
      else if parts[3] == "token1" then
        To("pair_day_data", parts[2] + "-" + parts[1], Sq.Update, "daily_volume_token_1", d)
      else Nothing()
    else if parts[0] == "pair_hour" then
      if d.operation == Sq.Delete then Nothing()
      else if Short(parts, 3) then Panicked
      else if parts[3] == "usd" then
        To("pair_hour_data", parts[2] + "-" + parts[1], Sq.Update, "hourly_volume_usd", d)
      else if parts[3] == "token0" then
        To("pair_hour_data", parts[2] + "-" + parts[1], Sq.Update, "hourly_volume_token_0", d)
      else if parts[3] == "token1" then
        To("pair_hour_data", parts[2] + "-" + parts[1], Sq.Update, "hourly_volume_token_1", d)
      else Nothing()
    else if parts[0] == "pair" then
      if Short(parts, 2) then Panicked
      else if parts[2] == "usd" then To("pair", parts[1], d.operation, "volume_usd", d)
      else if parts[2] == "token0" then To("pair", parts[1], d.operation, "volume_token0", d)
      else if parts[2] == "token1" then To("pair", parts[1], d.operation, "volume_token1", d)
      else if parts[2] == "total_supply" then To("pair", parts[1], d.operation, "total_supply", d)
      else Nothing()
    else if parts[0] == "token_day" then
      if d.operation == Sq.Delete then Nothing()
      else if Short(parts, 3) then Panicked
      else if parts[3] == "usd" then
        To("token_day_data", parts[2] + "-" + parts[1], d.operation, "daily_volume_usd", d)
      else Nothing()
    else if parts[0] == "token" then
      if Short(parts, 2) then Panicked
      else if parts[2] == "trade" then To("token", parts[1], d.operation, "trade_volume", d)
      else if parts[2] == "trade_usd" then To("token", parts[1], d.operation, "trade_volume_usd", d)
      else if parts[2] == "liquidity" then To("token", parts[1], d.operation, "liquidity", d)
      else Nothing()
    else if parts[0] == "global" then
      if Short(parts, 1) then Panicked
      else if parts[1] == "usd" then To("pancake_factory", PANCAKE_FACTORY, Sq.Update, "total_volume_usd", d)
      else if parts[1] == "bnb" then To("pancake_factory", PANCAKE_FACTORY, Sq.Update, "total_volume_bnb", d)
      else if parts[1] == "liquidity_usd" then
        To("pancake_factory", PANCAKE_FACTORY, Sq.Update, "total_liquidity_usd", d)
      else Nothing()
    else if parts[0] == "global_day" then
      if d.operation == Sq.Delete then Nothing()
      else if Short(parts, 2) then Panicked
      else if parts[2] == "usd" then To("pancake_day_data", parts[1], d.operation, "daily_volume_usd", d)
      else if parts[2] == "bnb" then To("pancake_day_data", parts[1], Sq.Update, "daily_volume_bnb", d)
      else Nothing()
    else Nothing()
  }

  function RouteReserve(d: Delta): Handled {
    var parts := Split(d.key, ':');
    if parts[0] == "pair_day" || parts[0] == "pair_hour" then
      if d.operation == Sq.Delete then Nothing()
      else if Short(parts, 3) then Panicked
      else
        var table := if parts[0] == "pair_day" then "pair_day_data" else "pair_hour_data";
        if parts[3] == "reserve0" then To(table, parts[2] + "-" + parts[1], d.operation, "reserve_0", d)
        else if parts[3] == "reserve1" then To(table, parts[2] + "-" + parts[1], Sq.Update, "reserve_1", d)
        else Nothing()
    else if parts[0] == "price" then
      if Short(parts, 3) then Panicked
      else if parts[3] == "token0" then To("pair", parts[1], d.operation, "token_0_price", d)
      else if parts[3] == "token1" then To("pair", parts[1], d.operation, "token_1_price", d)
      else Nothing()
    else if parts[0] == "reserve" then
      if Short(parts, 3) then Panicked
      else if parts[3] == "reserve0" then To("pair", parts[1], d.operation, "reserve_0", d)
      else if parts[3] == "reserve1" then To("pair", parts[1], d.operation, "reserve_1", d)
      else Nothing()
    else Nothing()
  }

  // ---------------------------------------------------------------------
  // Keys and their parts
  // ---------------------------------------------------------------------

  /** What may follow the parts of a key that a handler reads. */
  predicate Ends(rest: string) {
    rest == "" || rest[0] == ':'
  }

  lemma SplitOn(a: string, rest: string)
    requires ':' !in a && Ends(rest)
    ensures Split(a + rest, ':') == [a] + if rest == "" then [] else Split(rest[1..], ':')
  {
    if rest == "" {
      assert a + rest == a;
      SplitWhole(a, ':');
    } else {
      assert a + rest == a + [':'] + rest[1..];
      SplitFirst(a, ':', rest[1..]);
    }
  }

  lemma KeyTwo(a: string, b: string, rest: string)
    requires ':' !in a && ':' !in b && Ends(rest)
    ensures var parts := Split(a + ":" + b + rest, ':');
            |parts| >= 2 && parts[0] == a && parts[1] == b
  {
    hide Split;
    assert a + ":" + b + rest == a + (":" + (b + rest));
    SplitOn(a, ":" + (b + rest));
    assert (":" + (b + rest))[1..] == b + rest;
    SplitOn(b, rest);
  }

  lemma KeyThree(a: string, b: string, c: string, rest: string)
    requires ':' !in a && ':' !in b && ':' !in c && Ends(rest)
    ensures var parts := Split(a + ":" + b + ":" + c + rest, ':');
            |parts| >= 3 && parts[0] == a && parts[1] == b && parts[2] == c
  {
    hide Split;
    var tail := b + ":" + c + rest;
    assert a + ":" + b + ":" + c + rest == a + (":" + tail);
    SplitOn(a, ":" + tail);
    assert (":" + tail)[1..] == tail;
    KeyTwo(b, c, rest);
  }

  lemma KeyFour(a: string, b: string, c: string, e: string, rest: string)
    requires ':' !in a && ':' !in b && ':' !in c && ':' !in e && Ends(rest)
    ensures var parts := Split(a + ":" + b + ":" + c + ":" + e + rest, ':');
            |parts| >= 4 && parts[0] == a && parts[1] == b && parts[2] == c && parts[3] == e
  {
    hide Split;
    var tail := b + ":" + c + ":" + e + rest;
    assert a + ":" + b + ":" + c + ":" + e + rest == a + (":" + tail);
    SplitOn(a, ":" + tail);
    assert (":" + tail)[1..] == tail;
    KeyThree(b, c, e, rest);
  }

  /** A key is its first part and what comes behind it. */
  lemma {:induction false} Unsplit(v: string) returns (rest: string)
    ensures var parts := Split(v, ':');
            && ':' !in parts[0] && Ends(rest) && v == parts[0] + rest
            && (|parts| == 1 <==> rest == "")
            && (rest != "" ==> Split(rest[1..], ':') == parts[1..])
  {
    if v == "" {
      rest := "";
    } else if v[0] == ':' {
      rest := v;
    } else {
      rest := Unsplit(v[1..]);
      assert v == [v[0]] + v[1..];
    }
  }

  lemma {:induction false} PartsAreColons(v: string)
    ensures |Split(v, ':')| == 1 + multiset(v)[':']
  {
    if v == "" {
    } else {
      PartsAreColons(v[1..]);
      assert v == [v[0]] + v[1..];
    }
  }

  lemma UnsplitTwo(v: string) returns (rest: string)
    requires |Split(v, ':')| >= 2
    ensures var parts := Split(v, ':');
            ':' !in parts[0] && ':' !in parts[1] && Ends(rest) && v == parts[0] + ":" + parts[1] + rest
    ensures |Split(v, ':')| > 2 ==> rest != "" && Split(rest[1..], ':') == Split(v, ':')[2..]
  {
    hide Split;
    var tail := Unsplit(v);
    rest := Unsplit(tail[1..]);
    assert tail == ":" + tail[1..];
  }

  lemma UnsplitThree(v: string) returns (rest: string)
    requires |Split(v, ':')| >= 3
    ensures var parts := Split(v, ':');
            && ':' !in parts[0] && ':' !in parts[1] && ':' !in parts[2] && Ends(rest)
            && v == parts[0] + ":" + parts[1] + ":" + parts[2] + rest
  {
    hide Split;
    var tail := UnsplitTwo(v);
    rest := Unsplit(tail[1..]);
    assert tail == ":" + tail[1..];
  }

  lemma UnsplitFour(v: string) returns (rest: string)
    requires |Split(v, ':')| >= 4
    ensures var parts := Split(v, ':');
            && ':' !in parts[0] && ':' !in parts[1] && ':' !in parts[2] && ':' !in parts[3] && Ends(rest)
            && v == parts[0] + ":" + parts[1] + ":" + parts[2] + ":" + parts[3] + rest
  {
    hide Split;
    var tail := UnsplitTwo(v);
    rest := UnsplitTwo(tail[1..]);
    assert tail == ":" + tail[1..];
  }

  /** The key is the text a, or goes on behind it with a colon. */
  predicate Leads(a: string, v: string) {
    v == a || a + ":" <= v
  }

  lemma FirstPart(v: string, a: string)
    requires ':' !in a
    ensures Split(v, ':')[0] == a <==> Leads(a, v)
  {
    hide Split;
    var rest := Unsplit(v);
    if a + ":" <= v {
      assert v == a + v[|a|..];
      SplitOn(a, v[|a|..]);
    }
    if v == a {
      assert v == a + "";
      SplitOn(a, "");
    }
    if Split(v, ':')[0] == a && rest != "" {
      assert rest == ":" + rest[1..];
      assert v[..|a| + 1] == a + ":";
    }
  }

  /** The two volumes of one swap go to one row. */
  lemma GlobalVolumes(usd: Delta, bnb: Delta)
    requires usd.key == "global:usd" && bnb.key == "global:bnb"
    ensures RouteVolume(usd) == To("pancake_factory", PANCAKE_FACTORY, Sq.Update, "total_volume_usd", usd)
    ensures RouteVolume(bnb) == To("pancake_factory", PANCAKE_FACTORY, Sq.Update, "total_volume_bnb", bnb)
  {
    KeyTwo("global", "usd", "");
    KeyTwo("global", "bnb", "");
    assert usd.key == "global" + ":" + "usd" + "" && bnb.key == "global" + ":" + "bnb" + "";
  }
}
