/** The counter store of a run of blocks, and the laws its counters obey. */
module Totals {
  import opened Prelude
  import opened BlockRanges

  /** What happened on a pair. Missing is an event without a type, on which the handler panics. */
  datatype Kind = Swap(amountUsd: string) | Burn | Mint | Missing

  datatype Event = Event(logOrdinal: nat, kind: Kind, pair: string, token0: string, token1: string)

  datatype Counter =
    | PairCount
    | AllTx
    | DayTx(day: int)
    | TokenTx(token: string)
    | PairTx(pair: string)
    | Swaps(pair: string)
    | Burns(pair: string)
    | Mints(pair: string)

  type Counts = map<Counter, int>

  function Get(m: Counts, k: Counter): int {
    if k in m then m[k] else 0
  }

  /** One block: its clock's timestamp if it has one, the number of new pairs, its events. */
  datatype Block = Block(seconds: Option<int>, pairs: nat, events: seq<Event>)

  /** `seconds / 86400` on a signed integer truncates toward zero. */
  function DayOf(seconds: int): int {
    if seconds >= 0 then seconds / 86400 else -(-seconds / 86400)
  }

  // ---------------------------------------------------------------------
  // The text of the keys
  // ---------------------------------------------------------------------

  function DayText(d: int): string {
    if d < 0 then "-" + Decimal(-d) else Decimal(d)
  }

  function Key(k: Counter): string {
    match k
    case PairCount => "global:pair_count"
    case AllTx => "global:transaction_count"
    case DayTx(d) => "global_day:" + DayText(d) + ":transaction_count"
    case TokenTx(t) => "token:" + t + ":transaction_count"
    case PairTx(p) => "pair:" + p + ":transaction_count"
    case Swaps(p) => "pair:" + p + ":swap_count"
    case Burns(p) => "pair:" + p + ":burn_count"
    case Mints(p) => "pair:" + p + ":mint_count"
  }

  /** The keys, and the day in them by example: a day before the epoch has a sign. */
  lemma KeyTexts(a: string, d: int)
    ensures Key(PairCount) == "global:pair_count" && Key(AllTx) == "global:transaction_count"
    ensures Key(DayTx(d)) == "global_day:" + DayText(d) + ":transaction_count"
    ensures Key(TokenTx(a)) == "token:" + a + ":transaction_count"
    ensures Key(PairTx(a)) == "pair:" + a + ":transaction_count" && Key(Swaps(a)) == "pair:" + a + ":swap_count"
    ensures Key(Burns(a)) == "pair:" + a + ":burn_count" && Key(Mints(a)) == "pair:" + a + ":mint_count"
    ensures DayText(19000) == "19000" && DayText(-1) == "-1"
  {
    assert Decimal(190) == "190" && Decimal(1900) == "1900" && Decimal(19000) == "19000";
  }

  lemma DayTextIsInjective(a: int, b: int)
    requires DayText(a) == DayText(b)
    ensures a == b
  {
    var m, n := if a < 0 then -a else a, if b < 0 then -b else b;
    DecimalParses(m);
    DecimalParses(n);
    assert IsDigit(Decimal(m)[0]) && IsDigit(Decimal(n)[0]);
    assert a < 0 <==> DayText(a)[0] == '-';
    assert b < 0 <==> DayText(b)[0] == '-';
    assert a < 0 ==> DayText(a)[1..] == Decimal(m);
    assert b < 0 ==> DayText(b)[1..] == Decimal(n);
  }

  lemma Middle(prefix: string, a: string, b: string, suffix: string)
    requires prefix + a + suffix == prefix + b + suffix
    ensures a == b
  {
    var s := prefix + a + suffix;
    assert |a| == |b|;
    assert s[|prefix|..|prefix| + |a|] == a;
    assert s[|prefix|..|prefix| + |a|] == b;
  }

  /** Whatever the addresses contain, two counters never share a key. */
  lemma KeyIsInjective(j: Counter, k: Counter)
    requires Key(j) == Key(k)
    ensures j == k
  {
    SameShape(j, k);
    match (j, k) {
      case (DayTx(a), DayTx(b)) =>
        Middle("global_day:", DayText(a), DayText(b), ":transaction_count");
        DayTextIsInjective(a, b);
      case (TokenTx(a), TokenTx(b)) => Middle("token:", a, b, ":transaction_count");
      case (PairTx(a), PairTx(b)) => Middle("pair:", a, b, ":transaction_count");
      case (Swaps(a), Swaps(b)) => Middle("pair:", a, b, ":swap_count");
      case (Burns(a), Burns(b)) => Middle("pair:", a, b, ":burn_count");
      case (Mints(a), Mints(b)) => Middle("pair:", a, b, ":mint_count");
      case _ =>
    }
  }

  /** The shape of a counter shows in the head and the tail of its key. */
  function Shape(k: Counter): (char, char, char, char) {
    match k
    case PairCount => ('g', ':', 'r', 'i')
    case AllTx => ('g', ':', 'n', 'o')
    case DayTx(_) => ('g', '_', 'n', 'o')
    case TokenTx(_) => ('t', ' ', 'n', 'o')
    case PairTx(_) => ('p', ' ', 'n', 'o')
    case Swaps(_) => ('p', ' ', 'p', 'a')
    case Burns(_) => ('p', ' ', 'n', 'r')
    case Mints(_) => ('p', ' ', 't', 'n')
  }

  lemma KeyHasShape(k: Counter)
    ensures var s := Key(k);
            |s| > 8 && Shape(k) == (s[0], if s[0] == 'g' then s[6] else ' ', s[|s| - 7], s[|s| - 8])
  {
    hide DayText;
  }

  lemma SameShape(j: Counter, k: Counter)
    requires Key(j) == Key(k)
    ensures Shape(j) == Shape(k)
  {
    KeyHasShape(j);
    KeyHasShape(k);
  }

  // ---------------------------------------------------------------------
  // What a run of blocks counts
  // ---------------------------------------------------------------------

  /** An event and the day it fell on. */
  datatype Stamped = Stamped(event: Event, day: int)

  function One(b: bool): nat {
    if b then 1 else 0
  }

  /** How much one event adds to counter k. */
  function Weight(s: Stamped, k: Counter): nat {
    match k
    case PairCount => 0
    case AllTx => 1
    case DayTx(d) => One(s.day == d)
    case TokenTx(t) => One(s.event.token0 == t) + One(s.event.token1 == t)
    case PairTx(p) => One(s.event.pair == p)
    case Swaps(p) => One(s.event.pair == p && s.event.kind.Swap? && s.event.kind.amountUsd != "")
    case Burns(p) => One(s.event.pair == p && s.event.kind == Burn)
    case Mints(p) => One(s.event.pair == p && s.event.kind == Mint)
  }

  function Tally(ss: seq<Stamped>, k: Counter): nat {
    if ss == [] then 0 else Tally(ss[..|ss| - 1], k) + Weight(ss[|ss| - 1], k)
  }

  function Stamps(b: Block): seq<Stamped> {
    var day := if b.seconds.Some? then DayOf(b.seconds.value) else 0;
    seq(|b.events|, i requires 0 <= i < |b.events| => Stamped(b.events[i], day))
  }

  function AllStamps(run: seq<Block>): seq<Stamped> {
    if run == [] then [] else AllStamps(run[..|run| - 1]) + Stamps(run[|run| - 1])
  }

  function NewPairs(run: seq<Block>): nat {
    if run == [] then 0 else NewPairs(run[..|run| - 1]) + run[|run| - 1].pairs
  }

  /** The counters after a run, from an empty store. */
  ghost predicate Reached(run: seq<Block>, m: Counts) {
    forall k :: Get(m, k) == Tally(AllStamps(run), k) + if k == PairCount then NewPairs(run) else 0
  }

  /** What handling one block adds. */
  ghost predicate Counted(b: Block, before: Counts, after: Counts) {
    forall k :: Get(after, k) == Get(before, k) + Tally(Stamps(b), k) + if k == PairCount then b.pairs else 0
  }

  lemma {:induction false} TallyConcat(a: seq<Stamped>, b: seq<Stamped>, k: Counter)
    ensures Tally(a + b, k) == Tally(a, k) + Tally(b, k)
  {
    if b == [] {
      assert a + b == a;
    } else {
      assert (a + b)[..|a + b| - 1] == a + b[..|b| - 1];
      TallyConcat(a, b[..|b| - 1], k);
    }
  }

  /** How many positions below n have property p. */
  ghost function Many(n: nat, p: int -> bool): nat {
    |set i | 0 <= i < n && p(i)|
  }

  lemma ManyOneMore(n: nat, p: int -> bool)
    ensures Many(n + 1, p) == Many(n, p) + One(p(n))
  {
    var now, next := set i | 0 <= i < n && p(i), set i | 0 <= i < n + 1 && p(i);
    assert next == if p(n) then now + {n} else now;
  }

  /** A tally counts the positions that weigh. */
  lemma {:induction false} TallyIsMany(ss: seq<Stamped>, k: Counter, p: int -> bool, q: int -> bool)
    requires forall i | 0 <= i < |ss| :: Weight(ss[i], k) == One(p(i)) + One(q(i))
    ensures Tally(ss, k) == Many(|ss|, p) + Many(|ss|, q)
  {
    hide Weight, Many;
    if ss == [] {
      ManyOfNone(p);
      ManyOfNone(q);
    } else {
      var m := |ss| - 1;
      TallyIsMany(ss[..m], k, p, q);
      ManyOneMore(m, p);
      ManyOneMore(m, q);
    }
  }

  lemma ManyOfNone(p: int -> bool)
    ensures Many(0, p) == 0
  {
    assert (set i | 0 <= i < 0 && p(i)) == {};
  }

  lemma ManyNever(n: nat, p: int -> bool)
    requires forall i :: !p(i)
    ensures Many(n, p) == 0
  {
    assert (set i | 0 <= i < n && p(i)) == {};
  }

  lemma ManyAlways(n: nat, p: int -> bool)
    requires forall i :: p(i)
    ensures Many(n, p) == n
  {
    if n == 0 {
      ManyOfNone(p);
    } else {
      ManyAlways(n - 1, p);
      ManyOneMore(n - 1, p);
    }
  }

  /** The day of a timestamp: truncated, so that day 0 has two days' worth of seconds. */
  lemma DayOfIs(seconds: int, d: int)
    ensures DayOf(seconds) == d <==>
            if seconds >= 0 then 86400 * d <= seconds < 86400 * (d + 1)
            else -86400 < seconds - 86400 * d <= 0
  {
  }

  /** What handling one block adds to each counter, event by event. */
  ghost predicate Grows(b: Block, before: Counts, after: Counts) {
    var n := |b.events|;
    && b.seconds.Some?
    && Get(after, PairCount) - Get(before, PairCount) == b.pairs
    && Get(after, AllTx) - Get(before, AllTx) == n
    && (forall d :: Get(after, DayTx(d)) - Get(before, DayTx(d)) ==
                    var seconds := b.seconds.value;
                    if (if seconds >= 0 then 86400 * d <= seconds < 86400 * (d + 1)
                        else -86400 < seconds - 86400 * d <= 0)
                    then n else 0)
    && (forall t :: Get(after, TokenTx(t)) - Get(before, TokenTx(t)) ==
                    |set i | 0 <= i < n && b.events[i].token0 == t| + |set i | 0 <= i < n && b.events[i].token1 == t|)
    && (forall p :: Get(after, PairTx(p)) - Get(before, PairTx(p)) == |set i | 0 <= i < n && b.events[i].pair == p|)
    && (forall p :: Get(after, Swaps(p)) - Get(before, Swaps(p)) ==
                    |set i | 0 <= i < n && b.events[i].pair == p && b.events[i].kind.Swap?
                             && b.events[i].kind.amountUsd != ""|)
    && (forall p :: Get(after, Burns(p)) - Get(before, Burns(p)) ==
                    |set i | 0 <= i < n && b.events[i].pair == p && b.events[i].kind.Burn?|)
    && (forall p :: Get(after, Mints(p)) - Get(before, Mints(p)) ==
                    |set i | 0 <= i < n && b.events[i].pair == p && b.events[i].kind.Mint?|)
  }

  /** The tally of counter k over the stamps of a block, by the two properties that make an event weigh. */
  lemma StampsCount(b: Block, k: Counter, p: int -> bool, q: int -> bool)
    requires b.seconds.Some?
    requires forall i | 0 <= i < |b.events| ::
               Weight(Stamped(b.events[i], DayOf(b.seconds.value)), k) == One(p(i)) + One(q(i))
    ensures Tally(Stamps(b), k) == Many(|b.events|, p) + Many(|b.events|, q)
  {
    hide Weight, Many, DayOf;
    TallyIsMany(Stamps(b), k, p, q);
  }

  lemma TokenGrows(b: Block, t: string)
    requires b.seconds.Some?
    ensures var n := |b.events|;
            Tally(Stamps(b), TokenTx(t)) ==
            |set i | 0 <= i < n && b.events[i].token0 == t| + |set i | 0 <= i < n && b.events[i].token1 == t|
  {
    var n := |b.events|;
    var p := i => 0 <= i < n && b.events[i].token0 == t;
    var q := i => 0 <= i < n && b.events[i].token1 == t;
    StampsCount(b, TokenTx(t), p, q);
    assert (set i | 0 <= i < n && p(i)) == set i | 0 <= i < n && b.events[i].token0 == t;
    assert (set i | 0 <= i < n && q(i)) == set i | 0 <= i < n && b.events[i].token1 == t;
  }

  lemma DayGrows(b: Block, d: int)
    requires b.seconds.Some?
    ensures Tally(Stamps(b), DayTx(d)) ==
            var seconds := b.seconds.value;
            if (if seconds >= 0 then 86400 * d <= seconds < 86400 * (d + 1)
                else -86400 < seconds - 86400 * d <= 0)
            then |b.events| else 0
  {
    var n, on := |b.events|, DayOf(b.seconds.value) == d;
    DayOfIs(b.seconds.value, d);
    var p, q := i => on, i => false;
    StampsCount(b, DayTx(d), p, q);
    ManyNever(n, q);
    if on { ManyAlways(n, p); } else { ManyNever(n, p); }
  }

  lemma PairGrows(b: Block, p: string)
    requires b.seconds.Some?
    ensures var n := |b.events|;
            Tally(Stamps(b), PairTx(p)) == |set i | 0 <= i < n && b.events[i].pair == p|
  {
    var n, never := |b.events|, i => false;
    var h := i => 0 <= i < n && b.events[i].pair == p;
    StampsCount(b, PairTx(p), h, never);
    ManyNever(n, never);
    assert (set i | 0 <= i < n && h(i)) == set i | 0 <= i < n && b.events[i].pair == p;
  }

  lemma SwapsGrow(b: Block, p: string)
    requires b.seconds.Some?
    ensures var n := |b.events|;
            Tally(Stamps(b), Swaps(p)) ==
            |set i | 0 <= i < n && b.events[i].pair == p && b.events[i].kind.Swap? && b.events[i].kind.amountUsd != ""|
  {
    var n, never := |b.events|, i => false;
    var h := i => 0 <= i < n && b.events[i].pair == p && b.events[i].kind.Swap? && b.events[i].kind.amountUsd != "";
    StampsCount(b, Swaps(p), h, never);
    ManyNever(n, never);
    assert (set i | 0 <= i < n && h(i)) == set i | 0 <= i < n && b.events[i].pair == p && b.events[i].kind.Swap?
                                                     && b.events[i].kind.amountUsd != "";
  }

  lemma BurnsGrow(b: Block, p: string)
    requires b.seconds.Some?
    ensures var n := |b.events|;
            Tally(Stamps(b), Burns(p)) == |set i | 0 <= i < n && b.events[i].pair == p && b.events[i].kind.Burn?|
  {
    var n, never := |b.events|, i => false;
    var h := i => 0 <= i < n && b.events[i].pair == p && b.events[i].kind.Burn?;
    StampsCount(b, Burns(p), h, never);
    ManyNever(n, never);
    assert (set i | 0 <= i < n && h(i)) == set i | 0 <= i < n && b.events[i].pair == p && b.events[i].kind.Burn?;
  }

  lemma MintsGrow(b: Block, p: string)
    requires b.seconds.Some?
    ensures var n := |b.events|;
            Tally(Stamps(b), Mints(p)) == |set i | 0 <= i < n && b.events[i].pair == p && b.events[i].kind.Mint?|
  {
    var n, never := |b.events|, i => false;
    var h := i => 0 <= i < n && b.events[i].pair == p && b.events[i].kind.Mint?;
    StampsCount(b, Mints(p), h, never);
    ManyNever(n, never);
    assert (set i | 0 <= i < n && h(i)) == set i | 0 <= i < n && b.events[i].pair == p && b.events[i].kind.Mint?;
  }

  /** What is counted is counted event by event. */
  lemma CountedGrows(b: Block, before: Counts, after: Counts)
    requires Counted(b, before, after) && b.seconds.Some?
    ensures Grows(b, before, after)
  {
    hide Tally, Stamps;
    TallyAll(Stamps(b));
    StampsLength(b);
    NoPairsTallied(Stamps(b));
    forall d { DayGrows(b, d); }
    forall t { TokenGrows(b, t); }
    forall p { PairGrows(b, p); }
    forall p { SwapsGrow(b, p); }
    forall p { BurnsGrow(b, p); }
    forall p { MintsGrow(b, p); }
  }

  lemma StampsLength(b: Block)
    ensures |Stamps(b)| == |b.events|
  {
  }

  lemma {:induction false} NoPairsTallied(ss: seq<Stamped>)
    ensures Tally(ss, PairCount) == 0
  {
    if ss == [] {
    } else {
      NoPairsTallied(ss[..|ss| - 1]);
    }
  }

  /** A run is reached block by block. */
  lemma ReachOneMore(run: seq<Block>, b: Block, before: Counts, after: Counts)
    requires Reached(run, before) && Counted(b, before, after)
    ensures Reached(run + [b], after)
  {
    var more := run + [b];
    assert more[..|more| - 1] == run;
    forall k
      ensures Get(after, k) == Tally(AllStamps(more), k) + if k == PairCount then NewPairs(more) else 0
    {
      TallyConcat(AllStamps(run), Stamps(b), k);
    }
  }

  // ---------------------------------------------------------------------
  // The handler
  // ---------------------------------------------------------------------

  class StoreAddInt64 {
    var counts: Counts

    constructor ()
      ensures Reached([], counts)
    {
      counts := map[];
    }

    method Add(k: Counter, value: int)
      modifies this
      ensures counts == old(counts)[k := Get(old(counts), k) + value]
    {
      counts := counts[k := (if k in counts then counts[k] else 0) + value];
    }

    method AddMany(ks: seq<Counter>, value: int)
      modifies this
      ensures forall k :: Get(counts, k) == Get(old(counts), k) + multiset(ks)[k] * value
    {
      for i := 0 to |ks|
        invariant forall k :: Get(counts, k) == Get(old(counts), k) + multiset(ks[..i])[k] * value
      {
        ghost var before := counts;
        Add(ks[i], value);
        CountOneMore(ks, i, value);
      }
      assert ks[..|ks|] == ks;
    }
  }

  lemma CountOneMore(ks: seq<Counter>, i: nat, value: int)
    requires i < |ks|
    ensures forall k ::
              multiset(ks[..i + 1])[k] * value == multiset(ks[..i])[k] * value + if k == ks[i] then value else 0
  {
    assert ks[..i + 1] == ks[..i] + [ks[i]];
    forall k
      ensures multiset(ks[..i + 1])[k] * value == multiset(ks[..i])[k] * value + if k == ks[i] then value else 0
    {
      if k == ks[i] {
        assert (multiset(ks[..i])[k] + 1) * value == multiset(ks[..i])[k] * value + value;
      }
    }
  }

  /** The counters every event adds to. */
  function TxKeys(event: Event, day: int): seq<Counter> {
    [TokenTx(event.token0)] + [TokenTx(event.token1)] + [PairTx(event.pair)] + [DayTx(day)] + [AllTx]
  }

  /** The counter that depends on what happened, if any. */
  function KindKeys(event: Event): seq<Counter> {
    match event.kind
    case Swap(amountUsd) => if amountUsd == "" then [] else [Swaps(event.pair)]
    case Burn => [Burns(event.pair)]
    case Mint => [Mints(event.pair)]
    case Missing => []
  }

  lemma CountSnoc<T>(s: seq<T>, x: T, k: T)
    ensures multiset(s + [x])[k] == multiset(s)[k] + One(k == x)
  {
  }

  lemma CountFive<T>(s: seq<T>, a: T, b: T, c: T, d: T, e: T, k: T)
    requires s == [a] + [b] + [c] + [d] + [e]
    ensures multiset(s)[k] == One(k == a) + One(k == b) + One(k == c) + One(k == d) + One(k == e)
  {
    hide One;
    CountSnoc([], a, k);
    assert [] + [a] == [a];
    CountSnoc([a], b, k);
    CountSnoc([a] + [b], c, k);
    CountSnoc([a] + [b] + [c], d, k);
    CountSnoc([a] + [b] + [c] + [d], e, k);
  }

  lemma WeightIsCount(event: Event, day: int, k: Counter)
    ensures Weight(Stamped(event, day), k) == multiset(TxKeys(event, day))[k] + multiset(KindKeys(event))[k]
  {
    CountFive(TxKeys(event, day), TokenTx(event.token0), TokenTx(event.token1), PairTx(event.pair), DayTx(day),
      AllTx, k);
  }

  /** Counts one event; fails, as the handler panics, when it has no type. */
  method CountEvent(event: Event, day: int, output: StoreAddInt64) returns (ok: bool)
    modifies output
    ensures ok <==> event.kind != Missing
    ensures ok ==> Grows(Block(Some(86400 * day), 0, [event]), old(output.counts), output.counts)
    ensures ok ==> forall k :: Get(output.counts, k) == Get(old(output.counts), k) + Weight(Stamped(event, day), k)
  {
    hide Weight;
    forall k { WeightIsCount(event, day, k); }
    output.AddMany(TxKeys(event, day), 1);
    match event.kind {
      case Missing =>
        return false;
      case Swap(amountUsd) =>
        if amountUsd != "" {
          output.AddMany([Swaps(event.pair)], 1);
        }
      case Burn =>
        output.Add(Burns(event.pair), 1);
      case Mint =>
        output.Add(Mints(event.pair), 1);
    }
    OneEventGrows(event, day, old(output.counts), output.counts);
    ok := true;
  }

  /** One event is counted like a block of one event on its day. */
  lemma OneEventGrows(event: Event, day: int, before: Counts, after: Counts)
    requires forall k :: Get(after, k) == Get(before, k) + Weight(Stamped(event, day), k)
    ensures Grows(Block(Some(86400 * day), 0, [event]), before, after)
  {
    hide Weight, Grows;
    var b := Block(Some(86400 * day), 0, [event]);
    DayOfIs(86400 * day, day);
    assert Stamps(b) == [Stamped(event, day)] && [Stamped(event, day)][..0] == [];
    forall k
      ensures Tally(Stamps(b), k) == Weight(Stamped(event, day), k)
    {
      assert Tally([], k) == 0;
    }
    NoPairsTallied(Stamps(b));
    CountedGrows(b, before, after);
  }

  /** Counts one block; fails, as the handler panics, when the clock has no timestamp
      or an event no type. */
  method StoreTotals(b: Block, output: StoreAddInt64) returns (ok: bool)
    modifies output
    ensures ok <==> b.seconds.Some? && forall e | e in b.events :: e.kind != Missing
    ensures ok ==> Grows(b, old(output.counts), output.counts)
    ensures ok ==> Counted(b, old(output.counts), output.counts)
  {
    ok := CountBlock(b, output);
    if ok {
      CountedGrows(b, old(output.counts), output.counts);
    }
  }

  /** The loops of StoreTotals. */
  method CountBlock(b: Block, output: StoreAddInt64) returns (ok: bool)
    modifies output
    ensures ok <==> b.seconds.Some? && forall e | e in b.events :: e.kind != Missing
    ensures ok ==> Counted(b, old(output.counts), output.counts)
  {
    hide Weight;
    if b.seconds.None? {
      return false;
    }
    var day := DayOf(b.seconds.value);
    ok := true;
    if |b.events| == 0 && b.pairs == 0 {
      return;
    }
    for i := 0 to b.pairs
      invariant forall k :: Get(output.counts, k) == Get(old(output.counts), k) + if k == PairCount then i else 0
    {
      output.Add(PairCount, 1);
    }
    for i := 0 to |b.events|
      invariant forall e | e in b.events[..i] :: e.kind != Missing
      invariant forall k :: Get(output.counts, k)
                  == Get(old(output.counts), k) + Tally(Stamps(b)[..i], k) + if k == PairCount then b.pairs else 0
    {
      assert Stamps(b)[..i + 1][..i] == Stamps(b)[..i];
      ok := CountEvent(b.events[i], day, output);
      if !ok {
        return;
      }
    }
    assert Stamps(b)[..|b.events|] == Stamps(b);
  }

  // ---------------------------------------------------------------------
  // Conservation
  // ---------------------------------------------------------------------

  ghost function Sum(keys: set<Counter>, f: Counter -> int): int {
    if keys == {} then 0 else
    var k :| k in keys;
    f(k) + Sum(keys - {k}, f)
  }

  lemma {:induction false} SumWithout(keys: set<Counter>, f: Counter -> int, j: Counter)
    requires j in keys
    ensures Sum(keys, f) == f(j) + Sum(keys - {j}, f)
  {
    var k :| k in keys && Sum(keys, f) == f(k) + Sum(keys - {k}, f);
    if k == j {
    } else {
      SumWithout(keys - {k}, f, j);
      SumWithout(keys - {j}, f, k);
      assert keys - {k} - {j} == keys - {j} - {k};
    }
  }

  lemma {:induction false} SumAdds(keys: set<Counter>, f: Counter -> int, g: Counter -> int, h: Counter -> int)
    requires forall k | k in keys :: h(k) == f(k) + g(k)
    ensures Sum(keys, h) == Sum(keys, f) + Sum(keys, g)
  {
    if keys == {} {
    } else {
      var k :| k in keys;
      SumWithout(keys, f, k);
      SumWithout(keys, g, k);
      SumWithout(keys, h, k);
      SumAdds(keys - {k}, f, g, h);
    }
  }

  lemma {:induction false} SumZero(keys: set<Counter>, f: Counter -> int)
    requires forall k | k in keys :: f(k) == 0
    ensures Sum(keys, f) == 0
  {
    if keys == {} {
    } else {
      var k :| k in keys;
      SumWithout(keys, f, k);
      SumZero(keys - {k}, f);
    }
  }

  lemma SumPoint(keys: set<Counter>, j: Counter, f: Counter -> int)
    requires j in keys && forall k | k in keys :: f(k) == if k == j then 1 else 0
    ensures Sum(keys, f) == 1
  {
    SumWithout(keys, f, j);
    SumZero(keys - {j}, f);
  }

  function GetsOf(m: Counts): Counter -> int {
    k => Get(m, k)
  }

  function TalliesOf(ss: seq<Stamped>): Counter -> int {
    k => Tally(ss, k)
  }

  function WeightsOf(s: Stamped): Counter -> int {
    k => Weight(s, k)
  }

  lemma Distribute(per: int, n: int)
    ensures per * (n + 1) == per * n + per
  {
  }

  lemma {:induction false} TallySum(keys: set<Counter>, ss: seq<Stamped>, per: int)
    requires forall s | s in ss :: Sum(keys, WeightsOf(s)) == per
    ensures Sum(keys, TalliesOf(ss)) == per * |ss|
  {
    hide Weight, Sum;
    if ss == [] {
      SumZero(keys, TalliesOf(ss));
    } else {
      var before, last := ss[..|ss| - 1], ss[|ss| - 1];
      TallySum(keys, before, per);
      SumAdds(keys, TalliesOf(before), WeightsOf(last), TalliesOf(ss));
      assert last in ss && |ss| == |before| + 1;
      Distribute(per, |before|);
    }
  }

  lemma {:induction false} TallyAtLeast(ss: seq<Stamped>, s: Stamped, k: Counter)
    requires s in ss
    ensures Tally(ss, k) >= Weight(s, k)
  {
    if s == ss[|ss| - 1] {
    } else {
      assert s in ss[..|ss| - 1];
      TallyAtLeast(ss[..|ss| - 1], s, k);
    }
  }

  lemma {:induction false} TallyAll(ss: seq<Stamped>)
    ensures Tally(ss, AllTx) == |ss|
  {
    if ss == [] {
    } else {
      TallyAll(ss[..|ss| - 1]);
    }
  }

  ghost function PairKeys(m: Counts): set<Counter> {
    set k | k in m && k.PairTx?
  }

  ghost function DayKeys(m: Counts): set<Counter> {
    set k | k in m && k.DayTx?
  }

  ghost function TokenKeys(m: Counts): set<Counter> {
    set k | k in m && k.TokenTx?
  }

  lemma CountedIsThere(run: seq<Block>, m: Counts, s: Stamped, k: Counter)
    requires Reached(run, m) && s in AllStamps(run) && Weight(s, k) > 0
    ensures k in m
  {
    TallyAtLeast(AllStamps(run), s, k);
    assert Get(m, k) > 0;
  }

  lemma SumOfGets(run: seq<Block>, m: Counts, keys: set<Counter>, per: int)
    requires Reached(run, m) && PairCount !in keys
    requires forall s | s in AllStamps(run) :: Sum(keys, WeightsOf(s)) == per
    ensures Sum(keys, GetsOf(m)) == per * Get(m, AllTx)
  {
    var ss := AllStamps(run);
    TallySum(keys, ss, per);
    TallyAll(ss);
    SumAdds(keys, TalliesOf(ss), k => 0, GetsOf(m));
    SumZero(keys, k => 0);
  }

  /** After every run of blocks, the transaction counts of all pairs add up to the
      global count, those of all days too, and those of all tokens to twice it. */
  lemma Conservation(run: seq<Block>, m: Counts)
    requires Reached(run, m)
    ensures Sum(PairKeys(m), GetsOf(m)) == Get(m, AllTx)
    ensures Sum(DayKeys(m), GetsOf(m)) == Get(m, AllTx)
    ensures Sum(TokenKeys(m), GetsOf(m)) == 2 * Get(m, AllTx)
  {
    forall s | s in AllStamps(run)
      ensures Sum(PairKeys(m), WeightsOf(s)) == 1
      ensures Sum(DayKeys(m), WeightsOf(s)) == 1
      ensures Sum(TokenKeys(m), WeightsOf(s)) == 2
    {
      PairWeights(run, m, s);
      TokenWeights(run, m, s);
    }
    SumOfGets(run, m, PairKeys(m), 1);
    SumOfGets(run, m, DayKeys(m), 1);
    SumOfGets(run, m, TokenKeys(m), 2);
  }

  lemma PairWeights(run: seq<Block>, m: Counts, s: Stamped)
    requires Reached(run, m) && s in AllStamps(run)
    ensures Sum(PairKeys(m), WeightsOf(s)) == 1 && Sum(DayKeys(m), WeightsOf(s)) == 1
  {
    CountedIsThere(run, m, s, PairTx(s.event.pair));
    CountedIsThere(run, m, s, DayTx(s.day));
    SumPoint(PairKeys(m), PairTx(s.event.pair), WeightsOf(s));
    SumPoint(DayKeys(m), DayTx(s.day), WeightsOf(s));
  }

  /** Both tokens of an event count, also when they are the same token. */
  lemma TokenWeights(run: seq<Block>, m: Counts, s: Stamped)
    requires Reached(run, m) && s in AllStamps(run)
    ensures Sum(TokenKeys(m), WeightsOf(s)) == 2
  {
    var a, b, keys := TokenTx(s.event.token0), TokenTx(s.event.token1), TokenKeys(m);
    CountedIsThere(run, m, s, a);
    CountedIsThere(run, m, s, b);
    var f, g := k => if k == a then 1 else 0, k => if k == b then 1 else 0;
    SumPoint(keys, a, f);
    SumPoint(keys, b, g);
    SumAdds(keys, f, g, WeightsOf(s));
  }

  lemma {:induction false} TallyAtMost(ss: seq<Stamped>, k: Counter)
    ensures Tally(ss, k) <= 2 * |ss|
  {
    if ss == [] {
    } else {
      TallyAtMost(ss[..|ss| - 1], k);
    }
  }

  /** No counter exceeds twice the number of events plus the number of pairs, so a
      signed 64-bit store computes the same counters for any run below that size. */
  lemma CountersFit(run: seq<Block>, m: Counts, k: Counter)
    requires Reached(run, m)
    ensures 0 <= Get(m, k) <= 2 * |AllStamps(run)| + NewPairs(run)
  {
    TallyAtMost(AllStamps(run), k);
  }

  /** The swaps of pair p whose amount is empty: they are transactions, but no swaps. */
  function Uncounted(ss: seq<Stamped>, p: string): nat {
    if ss == [] then 0 else
    Uncounted(ss[..|ss| - 1], p) + One(IsUncounted(ss[|ss| - 1].event, p))
  }

  predicate IsUncounted(e: Event, p: string) {
    e.pair == p && e.kind == Swap("")
  }

  lemma {:induction false} PairSplits(ss: seq<Stamped>, p: string)
    requires forall s | s in ss :: s.event.kind != Missing
    ensures Tally(ss, PairTx(p)) == Tally(ss, Swaps(p)) + Tally(ss, Burns(p)) + Tally(ss, Mints(p)) + Uncounted(ss, p)
    ensures Uncounted(ss, p) == 0 <==> forall s | s in ss :: !IsUncounted(s.event, p)
  {
    if ss == [] {
    } else {
      var before, last := ss[..|ss| - 1], ss[|ss| - 1];
      PairSplits(before, p);
      assert last in ss && ss == before + [last];
    }
  }

  lemma {:induction false} StampsHaveType(run: seq<Block>, s: Stamped)
    requires forall b, e | b in run && e in b.events :: e.kind != Missing
    requires s in AllStamps(run)
    ensures s.event.kind != Missing
  {
    var before, last := run[..|run| - 1], run[|run| - 1];
    if s in AllStamps(before) {
      StampsHaveType(before, s);
    } else {
      var i :| 0 <= i < |last.events| && Stamps(last)[i] == s;
      assert last in run && last.events[i] in last.events;
    }
  }

  /** Swaps, burns and mints of a pair add up to its transactions exactly when none
      of its swaps had an empty amount; otherwise they fall short by those swaps. */
  lemma PairLawIff(run: seq<Block>, m: Counts, p: string)
    requires Reached(run, m) && forall b, e | b in run && e in b.events :: e.kind != Missing
    ensures Get(m, PairTx(p)) == Get(m, Swaps(p)) + Get(m, Burns(p)) + Get(m, Mints(p)) + Uncounted(AllStamps(run), p)
    ensures Get(m, PairTx(p)) == Get(m, Swaps(p)) + Get(m, Burns(p)) + Get(m, Mints(p))
            <==> forall s | s in AllStamps(run) :: !IsUncounted(s.event, p)
  {
    forall s | s in AllStamps(run) ensures s.event.kind != Missing { StampsHaveType(run, s); }
    PairSplits(AllStamps(run), p);
  }
}
