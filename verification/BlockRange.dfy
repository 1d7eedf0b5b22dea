/**
 The text codec of block ranges: `[start,end)`, with an end of 0 for a range
 that is still open.
 */
module BlockRanges {
  import opened Prelude

  type Uint64 = n: int | 0 <= n < 0x1_0000_0000_0000_0000

  /** The fields of a block range. */
  datatype Bounds = Bounds(start: nat, end: nat)

  /** How a Go call ends: it returns, returns an error, or panics. */
  datatype Outcome<+T> = Returned(value: T) | Failed | Panicked

  // ---------------------------------------------------------------------
  // Decimal numbers
  // ---------------------------------------------------------------------

  predicate IsDigit(c: char) {
    '0' <= c <= '9'
  }

  function Digit(n: nat): char
    requires n < 10
  {
    '0' + n as char
  }

  function DigitValue(c: char): nat
    requires IsDigit(c)
  {
    (c - '0') as nat
  }

  /** `fmt.Sprintf("%d", n)` */
  function Decimal(n: nat): (s: string)
  {
    if n < 10 then [Digit(n)] else Decimal(n / 10) + [Digit(n % 10)]
  }

  function Value(s: string): nat
    requires forall i | 0 <= i < |s| :: IsDigit(s[i])
  {
    if s == [] then 0 else 10 * Value(s[..|s| - 1]) + DigitValue(s[|s| - 1])
  }

  /** `strconv.ParseUint(s, 10, 64)` */
  function ParseUint(s: string): Option<Uint64> {
    if s == [] || (exists i | 0 <= i < |s| :: !IsDigit(s[i])) then None
    else if Value(s) < 0x1_0000_0000_0000_0000 then Some(Value(s))
    else None
  }

  lemma {:induction false} DecimalParses(n: nat)
    ensures Decimal(n) != [] && forall i | 0 <= i < |Decimal(n)| :: IsDigit(Decimal(n)[i])
    ensures Value(Decimal(n)) == n
  {
    if n < 10 {
      assert Decimal(n) == [Digit(n)];
      assert Value([Digit(n)][..0]) == 0;
    } else {
      DecimalParses(n / 10);
      var s := Decimal(n);
      assert s[..|s| - 1] == Decimal(n / 10) && s[|s| - 1] == Digit(n % 10);
    }
  }

  // ---------------------------------------------------------------------
  // Library calls on strings
  // ---------------------------------------------------------------------

  /** `strings.Trim(v, "\"")` */
  function TrimQuotes(v: string): string {
    if v != [] && v[0] == '"' then TrimQuotes(v[1..])
    else if v != [] && v[|v| - 1] == '"' then TrimQuotes(v[..|v| - 1])
    else v
  }

  /** `strings.Split(v, sep)` for a separator of one character */
  function Split(v: string, sep: char): (parts: seq<string>)
    ensures |parts| > 0
  {
    if v == [] then [[]]
    else
      var rest := Split(v[1..], sep);
      if v[0] == sep then [[]] + rest else [[v[0]] + rest[0]] + rest[1..]
  }

  lemma {:induction false} SplitWhole(a: string, sep: char)
    requires sep !in a
    ensures Split(a, sep) == [a]
  {
    if a == [] {
    } else {
      SplitWhole(a[1..], sep);
      assert [a[0]] + a[1..] == a;
    }
  }

  /** The first separator ends the first part. */
  lemma {:induction false} SplitFirst(a: string, sep: char, z: string)
    requires sep !in a
    ensures Split(a + [sep] + z, sep) == [a] + Split(z, sep)
  {
    var v := a + [sep] + z;
    if a == [] {
      assert v[1..] == z;
    } else {
      assert v[1..] == a[1..] + [sep] + z;
      SplitFirst(a[1..], sep, z);
      assert [a[0]] + a[1..] == a;
      assert ([a[1..]] + Split(z, sep))[1..] == Split(z, sep);
    }
  }

  // ---------------------------------------------------------------------
  // The codec
  // ---------------------------------------------------------------------

  function Printed(b: Bounds): Outcome<string> {
    if b.start == 0 && b.end == 0 then Panicked
    else Returned("[" + Decimal(b.start) + "," + (if b.end > 0 then Decimal(b.end) else "") + ")")
  }

  /** The fields after a parse into b, and how the call ends. */
  function Parsed(b: Bounds, text: string): (Bounds, Outcome<()>) {
    var v := TrimQuotes(text);
    if |v| < 2 then (b, Panicked) else
    var vals := Split(v[1..|v| - 1], ',');
    var start := ParseUint(vals[0]);
    if vals[0] != "" && start.None? then (b, Failed) else
    var b1 := if vals[0] != "" then b.(start := start.value) else b;
    if |vals| < 2 then (b1, Panicked) else
    if vals[1] != "" && start.None? then (b1, Failed) else
    // the end is read from the start field
    var b2 := if vals[1] != "" then b1.(end := start.value) else b1;
    (b2, if b2.start == 0 && b2.end == 0 then Panicked else Returned(()))
  }

  class BlockRange {
    var StartBlock: Uint64
    var EndBlock: Uint64

    constructor (start: Uint64, end: Uint64)
      ensures Val() == Bounds(start, end)
    {
      StartBlock, EndBlock := start, end;
    }

    function Val(): Bounds
      reads this
    {
      Bounds(StartBlock, EndBlock)
    }

    method String() returns (r: Outcome<string>)
      ensures r == Printed(Val())
    {
      if StartBlock == 0 && EndBlock == 0 {
        return Panicked;
      }
      var s := "[" + Decimal(StartBlock) + ",";
      if EndBlock > 0 {
        s := s + Decimal(EndBlock);
      }
      s := s + ")";
      r := Returned(s);
      assert s == "[" + Decimal(StartBlock) + "," + (if EndBlock > 0 then Decimal(EndBlock) else "") + ")";
    }

    method ParseBytes(bs: string) returns (r: Outcome<()>)
      modifies this
      ensures (Val(), r) == Parsed(old(Val()), bs)
    {
      var v := TrimQuotes(bs);
      if |v| < 2 {
        return Panicked;
      }
      v := v[1..|v| - 1];
      var vals := Split(v, ',');
      if vals[0] != "" {
        var startBlock := ParseUint(vals[0]);
        if startBlock.None? {
          return Failed;
        }
        StartBlock := startBlock.value;
      }
      if |vals| < 2 {
        return Panicked;
      }
      if vals[1] != "" {
        var endBlock := ParseUint(vals[0]);
        if endBlock.None? {
          return Failed;
        }
        EndBlock := endBlock.value;
      }
      if StartBlock == 0 && EndBlock == 0 {
        return Panicked;
      }
      r := Returned(());
    }
  }

  predicate Fits(b: Bounds) {
    b.start < 0x1_0000_0000_0000_0000 && b.end < 0x1_0000_0000_0000_0000
  }

  lemma PrintedSplits(b: Bounds)
    requires Printed(b).Returned?
    ensures var text := Printed(b).value;
            var v := TrimQuotes(text);
            && v == text && 2 <= |v|
            && Split(v[1..|v| - 1], ',') == [Decimal(b.start), if b.end > 0 then Decimal(b.end) else ""]
  {
    hide TrimQuotes, Split, Decimal;
    var start, end := Decimal(b.start), if b.end > 0 then Decimal(b.end) else "";
    var text := Printed(b).value;
    DecimalParses(b.start);
    DecimalParses(b.end);
    assert text[0] == '[' && text[|text| - 1] == ')';
    QuotesTrimmed(text);
    assert text[1..|text| - 1] == start + "," + end;
    assert start + "," + end == start + [','] + end;
    SplitFirst(start, ',', end);
    SplitWhole(end, ',');
    assert [start] + [end] == [start, end];
  }

  /** What a parse of a printed range gives, into any receiver. */
  lemma ParsePrinted(into: Bounds, b: Bounds)
    requires Fits(b) && Printed(b).Returned?
    ensures var got := Bounds(b.start, if b.end > 0 then b.start else into.end);
            Parsed(into, Printed(b).value) ==
            (got, if got == Bounds(0, 0) then Panicked else Returned(()))
  {
    PrintedSplits(b);
    DecimalParses(b.start);
    DecimalParses(b.end);
  }

  /** Into a fresh value an open range comes back whole; a closed one keeps its
      start; the round trip is exact only for an open range and for the
      degenerate one that ends where it starts. */
  lemma RoundTripIff(b: Bounds)
    requires Fits(b) && Printed(b).Returned?
    ensures var (got, outcome) := Parsed(Bounds(0, 0), Printed(b).value);
            && got.start == b.start
            && (outcome == Returned(()) <==> 0 < b.start)
            && (got == b && outcome == Returned(()) <==> b.end == 0 || b.end == b.start)
  {
    ParsePrinted(Bounds(0, 0), b);
  }

  /** `[4,6)` comes back as `[4,4)`. */
  lemma ClosedRangeIsLost(b: Bounds)
    requires b == Bounds(4, 6)
    ensures Printed(b) == Returned("[4,6)")
    ensures Parsed(Bounds(0, 0), "[4,6)") == (Bounds(4, 4), Returned(()))
  {
    assert Printed(b) == Returned("[" + "4" + "," + "6" + ")");
    assert "[" + "4" + "," + "6" + ")" == "[4,6)";
    ParsePrinted(Bounds(0, 0), b);
  }

  lemma QuotesTrimmed(v: string)
    requires v != [] && v[0] != '"' && v[|v| - 1] != '"'
    ensures TrimQuotes("\"" + v + "\"") == v && TrimQuotes(v) == v
  {
    assert ("\"" + v + "\"")[1..] == v + "\"";
    assert (v + "\"")[..|v + "\""| - 1] == v;
    assert TrimQuotes(v + "\"") == v;
  }

  lemma PrintedEnds(b: Bounds)
    requires Printed(b).Returned?
    ensures var text := Printed(b).value;
            2 <= |text| && text[0] == '[' && text[|text| - 1] == ')'
  {
  }

  /** A printed range in quotes, as JSON has it, parses as the bare text does. */
  lemma ParseQuoted(into: Bounds, b: Bounds)
    requires Fits(b) && Printed(b).Returned?
    ensures Parsed(into, "\"" + Printed(b).value + "\"") == Parsed(into, Printed(b).value)
    ensures var got := Bounds(b.start, if b.end > 0 then b.start else into.end);
            Parsed(into, "\"" + Printed(b).value + "\"") ==
            (got, if got == Bounds(0, 0) then Panicked else Returned(()))
  {
    hide Split, Printed;
    PrintedEnds(b);
    QuotesTrimmed(Printed(b).value);
    ParsePrinted(into, b);
  }

  lemma RangeTexts()
    ensures Decimal(23) == "23" && Decimal(2314) == "2314"
    ensures Printed(Bounds(23, 2314)) == Returned("[23,2314)") && Printed(Bounds(23, 0)) == Returned("[23,)")
  {
    assert Decimal(231) == "231";
    hide Decimal;
    assert "[" + "23" + "," + "2314" + ")" == "[23,2314)";
    assert "[" + "23" + "," + "" + ")" == "[23,)";
  }

  /** "[23,2314)" with its quotes: the start is 23, and so is the end. */
  lemma ParseQuotedText(into: Bounds)
    ensures Parsed(into, "\"[23,2314)\"") == (Bounds(23, 23), Returned(()))
    ensures Parsed(into, "[23,)") == (Bounds(23, into.end), Returned(()))
  {
    hide Printed, Parsed, Decimal;
    RangeTexts();
    QuotedText();
    ParseQuoted(into, Bounds(23, 2314));
    ParsePrinted(into, Bounds(23, 0));
  }

  lemma QuotedText()
    ensures "\"" + "[23,2314)" + "\"" == "\"[23,2314)\""
  {
  }

  lemma RangeParts(start: string, end: string)
    requires ',' !in start
    ensures var v := TrimQuotes("[" + start + "," + end + ")");
            2 <= |v| && Split(v[1..|v| - 1], ',')[0] == start
  {
    var v := "[" + start + "," + end + ")";
    assert v[0] == '[' && v[|v| - 1] == ')';
    assert v[1..|v| - 1] == start + [','] + end;
    SplitFirst(start, ',', end);
  }

  /** A start that is not a number fails and leaves the receiver alone. */
  lemma BadStartFails(into: Bounds, start: string, end: string)
    requires start != "" && ',' !in start && exists i :: 0 <= i < |start| && !('0' <= start[i] <= '9')
    ensures Parsed(into, "[" + start + "," + end + ")") == (into, Failed)
  {
    hide Split, TrimQuotes;
    RangeParts(start, end);
    var i :| 0 <= i < |start| && !('0' <= start[i] <= '9');
    assert !IsDigit(start[i]);
  }

  /** So does one that takes more than 64 bits. */
  lemma LargeStartFails(into: Bounds, n: nat, end: string)
    requires n >= 0x1_0000_0000_0000_0000
    ensures Parsed(into, "[" + Decimal(n) + "," + end + ")") == (into, Failed)
  {
    hide Split, TrimQuotes;
    DecimalParses(n);
    RangeParts(Decimal(n), end);
  }
}
