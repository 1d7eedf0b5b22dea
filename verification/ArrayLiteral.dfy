/** The parser and the printer of PostgreSQL string arrays. */
module ArrayLiterals {
  import opened Prelude
  import opened ArrayGrammar

  /** What a driver column holds. */
  datatype Column = Null | Text(text: Bytes)

  // ---------------------------------------------------------------------
  // Parsing
  // ---------------------------------------------------------------------

  predicate HasPrefix(s: Bytes, i: nat, prefix: Bytes)
    requires i <= |s|
  {
    i + |prefix| <= |s| && s[i..i + |prefix|] == prefix
  }

  /** Levels that are closed hold at least one element. */
  ghost predicate Counted(dims: seq<nat>, depth: nat) {
    depth <= |dims| && forall k | depth <= k < |dims| :: dims[k] >= 1
  }

  lemma BeforeTwice(a: Bytes, b: Bytes, r: Option<(Bytes, Bytes)>)
    ensures Before(a, Before(b, r)) == Before(a + b, r) && Before([], r) == r
  {
    if r.Some? {
      assert a + (b + r.value.0) == a + b + r.value.0 && [] + r.value.0 == r.value.0;
    }
  }

  /** The quoted element whose text starts at start. */
  method ParseQuoted(src: Bytes, start: nat) returns (elem: Elem, i: nat)
    requires start <= |src|
    ensures start <= i <= |src|
    ensures match ReadQuoted(src[start..])
            case Some((bytes, rest)) => elem == Some(bytes) && src[i..] == rest && start < i
            case None => elem == None && i == |src|
  {
    var bytes: Bytes, escape := [], false;
    i := start;
    BeforeTwice([], [], ReadQuoted(src[start..]));
    while i < |src|
      invariant start <= i <= |src| && (escape ==> start < i)
      invariant var from := if escape then i - 1 else i;
                && ReadQuoted(src[start..]) == Before(bytes, ReadQuoted(src[from..]))
                && (escape ==> src[from] == BACKSLASH)
    {
      if escape {
        assert src[i - 1..][1] == src[i] && src[i - 1..][2..] == src[i + 1..];
        BeforeTwice(bytes, [src[i]], ReadQuoted(src[i + 1..]));
        bytes, escape := bytes + [src[i]], false;
      } else {
        assert src[i..][1..] == src[i + 1..];
        if src[i] == BACKSLASH {
          escape := true;
        } else if src[i] == QUOTE {
          assert bytes + [] == bytes;
          return Some(bytes), i + 1;
        } else {
          BeforeTwice(bytes, [src[i]], ReadQuoted(src[i + 1..]));
          bytes := bytes + [src[i]];
        }
      }
      i := i + 1;
    }
    elem := None;
  }

  /** The end of the unquoted element that starts at start, or of the text. */
  method ParseBare(src: Bytes, del: Bytes, start: nat) returns (i: nat)
    requires start <= |src|
    ensures start <= i <= |src|
    ensures i < |src| ==> HasPrefix(src, i, del) || src[i] == CLOSE
    ensures forall k | start <= k < i :: !HasPrefix(src, k, del) && src[k] != CLOSE
    ensures del == [COMMA] ==> i == start + BareLength(src[start..])
  {
    hide HasPrefix, BareLength;
    i := start;
    while i < |src|
      invariant start <= i <= |src|
      invariant forall k | start <= k < i :: !HasPrefix(src, k, del) && src[k] != CLOSE
      invariant del == [COMMA] ==> BareLength(src[start..]) == i - start + BareLength(src[i..])
    {
      CommaIsPrefix(src, i);
      BareLengthStep(src, i);
      if HasPrefix(src, i, del) || src[i] == CLOSE {
        return;
      }
      i := i + 1;
    }
  }

  lemma BareLengthStep(src: Bytes, i: nat)
    requires i < |src|
    ensures BareLength(src[i..]) == if EndsBare(src[i]) then 0 else 1 + BareLength(src[i + 1..])
  {
    assert src[i..][1..] == src[i + 1..];
  }

  lemma SkipOpen(src: Bytes, i: nat, depth: nat, dims: seq<nat>, elems: seq<Elem>)
    requires i < |src| && src[i] == OPEN && depth < |dims|
    ensures ReadElement(src[i..], depth, dims, elems) == ReadElement(src[i + 1..], depth + 1, dims[depth := 0], elems)
  {
    assert src[i..][1..] == src[i + 1..];
  }

  lemma NoElement(src: Bytes, i: nat, depth: nat, dims: seq<nat>, elems: seq<Elem>)
    requires i <= |src| && 0 < depth <= |dims| && (i < |src| ==> src[i] == OPEN && depth == |dims|)
    ensures ReadElement(src[i..], depth, dims, elems) == ReadMore(src[i..], depth, dims, elems) == None
  {
  }

  lemma TookQuoted(src: Bytes, i: nat, j: nat, depth: nat, dims: seq<nat>, elems: seq<Elem>, elem: Elem)
    requires i < |src| && j <= |src| && src[i] == QUOTE && 0 < depth <= |dims|
    requires match ReadQuoted(src[i + 1..])
             case Some((bytes, rest)) => elem == Some(bytes) && src[j..] == rest
             case None => elem == None && j == |src|
    ensures ReadElement(src[i..], depth, dims, elems)
            == ReadMore(src[j..], depth, dims, if elem.Some? then elems + [elem] else elems)
  {
    assert src[i..][1..] == src[i + 1..];
    assert ReadItem(src[i..]) == if elem.Some? then Some((elem, src[j..])) else None;
  }

  lemma TookBare(src: Bytes, i: nat, j: nat, depth: nat, dims: seq<nat>, elems: seq<Elem>)
    requires i < |src| && i <= j <= |src| && src[i] != QUOTE && src[i] != OPEN && 0 < depth <= |dims|
    requires j == i + BareLength(src[i..])
    ensures ReadElement(src[i..], depth, dims, elems) ==
            if i == j then None
            else ReadMore(src[j..], depth, dims,
                          if j < |src| then elems + [if src[i..j] == NULL then None else Some(src[i..j])] else elems)
  {
    var elem := if src[i..j] == NULL then None else Some(src[i..j]);
    assert src[i..][j - i..] == src[j..] && src[i..][..j - i] == src[i..j];
    assert ReadItem(src[i..]) == if i < j < |src| then Some((elem, src[j..])) else None;
  }

  /** From the label Element: opening braces, then one element. */
  method ParseElement(src: Bytes, del: Bytes, start: nat, depth0: nat, dims0: seq<nat>, elems0: seq<Elem>)
    returns (ok: bool, i: nat, depth: nat, dims: seq<nat>, elems: seq<Elem>)
    requires del != [] && start <= |src| && 1 <= depth0 && Counted(dims0, depth0)
    ensures start <= i <= |src| && |dims| == |dims0|
    ensures ok ==> 1 <= depth && Counted(dims, depth)
    ensures del == [COMMA] ==> ReadElement(src[start..], depth0, dims0, elems0)
                               == if ok then ReadMore(src[i..], depth, dims, elems) else None
  {
    hide BareLength, ReadQuoted, ReadElement, ReadMore, HasPrefix;
    i, depth, dims, elems := start, depth0, dims0, elems0;
    while i < |src| && src[i] == OPEN && depth < |dims|
      invariant start <= i <= |src| && |dims| == |dims0| && 1 <= depth && Counted(dims, depth)
      invariant ReadElement(src[start..], depth0, dims0, elems0) == ReadElement(src[i..], depth, dims, elems)
    {
      SkipOpen(src, i, depth, dims, elems);
      depth := depth + 1;
      dims := dims[depth - 1 := 0];
      i := i + 1;
    }
    ok := true;
    if i == |src| || src[i] == OPEN {
      NoElement(src, i, depth, dims, elems);
      return;
    }
    if src[i] == QUOTE {
      var elem, j := ParseQuoted(src, i + 1);
      TookQuoted(src, i, j, depth, dims, elems, elem);
      if elem.Some? {
        elems := elems + [elem];
      }
      i := j;
    } else {
      var j := ParseBare(src, del, i);
      if del == [COMMA] {
        TookBare(src, i, j, depth, dims, elems);
      }
      if j == i {
        return false, i, depth, dims, elems;
      }
      if j < |src| {
        elems := elems + [if src[i..j] == NULL then None else Some(src[i..j])];
      }
      i := j;
    }
  }

  lemma TookComma(src: Bytes, i: nat, depth: nat, dims: seq<nat>, elems: seq<Elem>)
    requires i < |src| && src[i] == COMMA && 0 < depth <= |dims|
    ensures ReadMore(src[i..], depth, dims, elems) == ReadElement(src[i + 1..], depth, Bump(dims, depth - 1), elems)
  {
    assert src[i..][1..] == src[i + 1..];
  }

  lemma TookClose(src: Bytes, i: nat, depth: nat, dims: seq<nat>, elems: seq<Elem>)
    requires i < |src| && src[i] == CLOSE && 0 < depth <= |dims|
    ensures ReadMore(src[i..], depth, dims, elems) == ReadMore(src[i + 1..], depth - 1, Bump(dims, depth - 1), elems)
  {
    assert src[i..][1..] == src[i + 1..];
  }

  lemma Unexpected(src: Bytes, i: nat, depth: nat, dims: seq<nat>, elems: seq<Elem>)
    requires i < |src| && depth <= |dims| && (depth > 0 ==> src[i] != COMMA && src[i] != CLOSE)
    ensures ReadMore(src[i..], depth, dims, elems) == None
  {
  }

  lemma CommaIsPrefix(src: Bytes, i: nat)
    requires i < |src|
    ensures HasPrefix(src, i, [COMMA]) <==> src[i] == COMMA
  {
    assert src[i..i + 1] == [src[i]];
  }

  /** After an element: closing braces, up to a delimiter or the end of the text. */
  method ParseRest(src: Bytes, del: Bytes, start: nat, depth0: nat, dims0: seq<nat>, ghost elems: seq<Elem>)
    returns (ok: bool, again: bool, i: nat, depth: nat, dims: seq<nat>)
    requires del != [] && start <= |src| && Counted(dims0, depth0)
    ensures start <= i <= |src| && |dims| == |dims0|
    ensures ok ==> Counted(dims, depth) && if again then start < i && 1 <= depth else i == |src|
    ensures del == [COMMA] ==>
              ReadMore(src[start..], depth0, dims0, elems)
              == (if !ok then None
                  else if again then ReadElement(src[i..], depth, dims, elems)
                  else ReadMore([], depth, dims, elems))
  {
    hide ReadElement, ReadMore, HasPrefix;
    i, depth, dims := start, depth0, dims0;
    while i < |src|
      invariant start <= i <= |src| && |dims| == |dims0| && Counted(dims, depth)
      invariant del == [COMMA] ==>
                  ReadMore(src[start..], depth0, dims0, elems) == ReadMore(src[i..], depth, dims, elems)
    {
      CommaIsPrefix(src, i);
      if HasPrefix(src, i, del) && depth > 0 {
        PrefixFits(src, i, del);
        if del == [COMMA] {
          TookComma(src, i, depth, dims, elems);
        }
        return true, true, i + |del|, depth, dims[depth - 1 := dims[depth - 1] + 1];
      } else if src[i] == CLOSE && depth > 0 {
        TookClose(src, i, depth, dims, elems);
        dims := dims[depth - 1 := dims[depth - 1] + 1];
        depth, i := depth - 1, i + 1;
      } else {
        if del == [COMMA] {
          Unexpected(src, i, depth, dims, elems);
        }
        return false, false, i, depth, dims;
      }
    }
    assert src[i..] == [];
    ok, again := true, false;
  }

  lemma PrefixFits(src: Bytes, i: nat, del: Bytes)
    requires i < |src| && HasPrefix(src, i, del)
    ensures i + |del| <= |src|
  {
  }

  /** The label Close for an array without elements. */
  method ParseEmpty(src: Bytes, braces: nat) returns (ok: bool)
    requires braces == Opens(src) && braces < |src| && src[braces] == CLOSE
    ensures ok <==> src[braces..] == Repeat(CLOSE, braces)
  {
    var i, depth := braces, braces;
    while i < |src|
      invariant braces <= i <= |src| && depth == braces - (i - braces) >= 0
      invariant forall k | braces <= k < i :: src[k] == CLOSE
    {
      if src[i] == CLOSE && depth > 0 {
        depth := depth - 1;
        i := i + 1;
      } else {
        assert src[braces..][i - braces] == src[i];
        return false;
      }
    }
    ok := depth == 0;
  }

  /** The last groups of every level have sizes that divide the number of elements. */
  method DimensionsMatch(dims: seq<nat>, elems: seq<Elem>) returns (ok: bool)
    requires forall k | 0 <= k < |dims| :: dims[k] >= 1
    ensures ok <==> forall k | 0 <= k < |dims| :: |elems| % dims[k] == 0
  {
    ok := true;
    for j := 0 to |dims|
      invariant ok <==> forall k | 0 <= k < j :: Divides(dims[k], |elems|)
    {
      if |elems| % dims[j] != 0 {
        ok := false;
      }
    }
  }

  /** The number of leading braces. */
  method CountOpens(src: Bytes) returns (i: nat)
    ensures i == Opens(src)
  {
    i := 0;
    while i < |src| && src[i] == OPEN
      invariant i <= |src| && Opens(src) == i + Opens(src[i..])
    {
      assert src[i..][1..] == src[i + 1..];
      i := i + 1;
    }
  }

  /** Total for every text and every non-empty delimiter; no dimension it divides
      by is 0. With a comma it is the reader of array literals. */
  method ParseArray(src: Bytes, del: Bytes) returns (r: Option<(seq<nat>, seq<Elem>)>)
    requires del != []
    ensures r.Some? ==> forall k | 0 <= k < |r.value.0| :: r.value.0[k] > 0 && |r.value.1| % r.value.0[k] == 0
    ensures del == [COMMA] ==> r == ReadArray(src)
  {
    hide ReadElement, ReadMore;
    if |src| < 1 || src[0] != OPEN {
      return None;
    }
    var i := CountOpens(src);
    var depth: nat, elems: seq<Elem> := i, [];
    if i < |src| && src[i] == CLOSE {
      var ok := ParseEmpty(src, i);
      return if ok then Some(([], [])) else None;
    }
    var dims: seq<nat> := seq(i, _ => 0);
    ghost var goal := ReadElement(src[i..], i, dims, []);
    var again := true;
    while again
      invariant i <= |src| && Counted(dims, depth)
      invariant again ==> 1 <= depth && (del == [COMMA] ==> goal == ReadElement(src[i..], depth, dims, elems))
      invariant !again ==> i == |src| && (del == [COMMA] ==> goal == ReadMore([], depth, dims, elems))
      decreases |src| - i, again
    {
      var ok;
      ok, i, depth, dims, elems := ParseElement(src, del, i, depth, dims, elems);
      if !ok {
        return None;
      }
      ok, again, i, depth, dims := ParseRest(src, del, i, depth, dims, elems);
      if !ok {
        return None;
      }
    }
    AtEnd(depth, dims, elems);
    if depth > 0 {
      return None;
    }
    var ok := DimensionsMatch(dims, elems);
    r := if ok then Some((dims, elems)) else None;
  }

  lemma AtEnd(depth: nat, dims: seq<nat>, elems: seq<Elem>)
    requires depth <= |dims|
    ensures ReadMore([], depth, dims, elems) == if depth > 0 then None else Some((dims, elems))
  {
  }

  method ScanLinearArray(src: Bytes) returns (elems: Option<seq<Elem>>)
    ensures elems == ReadLinear(src)
  {
    var r := ParseArray(src, [COMMA]);
    if r.None? || |r.value.0| > 1 {
      return None;
    }
    elems := Some(r.value.1);
  }

  // ---------------------------------------------------------------------
  // The string array column
  // ---------------------------------------------------------------------

  function Escape(v: Bytes): Bytes {
    PiecesText(ItemFor(v).pieces)
  }

  lemma EscapeHead(v: Bytes)
    requires v != []
    ensures Escape(v) == PieceText(PieceFor(v[0])) + Escape(v[1..])
  {
    assert ItemFor(v).pieces[1..] == ItemFor(v[1..]).pieces;
  }

  lemma {:induction false} EscapePlain(v: Bytes, i: nat)
    requires i <= |v| && forall k | 0 <= k < i :: !Special(v[k])
    ensures Escape(v) == v[..i] + Escape(v[i..])
  {
    if i > 0 {
      EscapeHead(v);
      EscapePlain(v[1..], i - 1);
      assert v[1..][..i - 1] == v[1..i] && v[1..][i - 1..] == v[i..] && v[..i] == [v[0]] + v[1..i];
    } else {
      assert v[0..] == v;
    }
  }

  /** `bytes.IndexAny(v, quote and backslash)` */
  method IndexSpecial(v: Bytes) returns (i: nat)
    ensures i <= |v| && (forall k | 0 <= k < i :: !Special(v[k])) && (i < |v| ==> Special(v[i]))
  {
    i := 0;
    while i < |v| && !Special(v[i])
      invariant i <= |v| && forall k | 0 <= k < i :: !Special(v[k])
    {
      i := i + 1;
    }
  }

  lemma EscapeNext(v: Bytes, i: nat)
    requires i < |v| && Special(v[i]) && forall k | 0 <= k < i :: !Special(v[k])
    ensures Escape(v) == v[..i] + [BACKSLASH, v[i]] + Escape(v[i + 1..])
  {
    EscapePlain(v, i);
    EscapeHead(v[i..]);
    assert v[i..][1..] == v[i + 1..];
    Assoc(v[..i], [BACKSLASH, v[i]], Escape(v[i + 1..]));
  }

  method AppendArrayQuotedBytes(b: Bytes, v: Bytes) returns (r: Bytes)
    ensures r == b + ItemText(ItemFor(v))
  {
    hide Escape, Special;
    r := b + [QUOTE];
    ghost var target := r + Escape(v);
    var v' := v;
    while true
      invariant r + Escape(v') == target
      decreases |v'|
    {
      var i := IndexSpecial(v');
      if i == |v'| {
        EscapePlain(v', i);
        EscapeNothing(v'[i..]);
        assert v'[..i] == v' && v' + [] == v';
        r := r + v';
        assert r == target;
        break;
      }
      EscapeNext(v', i);
      Assoc(r, v'[..i] + [BACKSLASH, v'[i]], Escape(v'[i + 1..]));
      r := r + (v'[..i] + [BACKSLASH, v'[i]]);
      v' := v'[i + 1..];
    }
    r := r + [QUOTE];
    QuotedIs(b, v);
  }

  lemma EscapeNothing(v: Bytes)
    requires v == []
    ensures Escape(v) == []
  {
  }

  lemma QuotedIs(b: Bytes, v: Bytes)
    ensures b + [QUOTE] + Escape(v) + [QUOTE] == b + ItemText(ItemFor(v))
  {
    hide PiecesText;
    Assoc(b + [QUOTE], Escape(v), [QUOTE]);
    Assoc(b, [QUOTE], Escape(v) + [QUOTE]);
    Assoc([QUOTE], Escape(v), [QUOTE]);
  }

  /** `LocalStringArray`, a nullable slice of strings. */
  class LocalStringArray {
    var list: Option<seq<Bytes>>

    constructor (list: Option<seq<Bytes>>)
      ensures this.list == list
    {
      this.list := list;
    }

    method Value() returns (c: Column)
      ensures c == match list case None => Null case Some(a) => Text(Printed(a))
    {
      if list.None? {
        return Null;
      }
      hide ItemText, ItemFor, ListText;
      var a := list.value;
      if |a| == 0 {
        return Text([OPEN, CLOSE]);
      }
      var b := AppendArrayQuotedBytes([OPEN], a[0]);
      FirstItem(a);
      for i := 1 to |a|
        invariant b == [OPEN] + ListText(a[..i])
      {
        NextItem(a, i);
        b := AppendArrayQuotedBytes(b + [COMMA], a[i]);
      }
      assert a[..|a|] == a;
      ListIsPrinted(a);
      c := Text(b + [CLOSE]);
    }

    /** Fails on text that is no one-dimensional literal, or has an unquoted NULL;
        the array is then as it was. */
    method ScanBytes(src: Bytes) returns (ok: bool)
      modifies this
      ensures ok <==> ReadLinear(src).Some? && None !in ReadLinear(src).value
      ensures ok ==> list.Some? && Some(Strings(list.value)) == ReadLinear(src)
      ensures !ok ==> list == old(list)
      ensures src == [123, 78, 85, 76, 76, 125] ==> !ok
      ensures src == [123, 110, 117, 108, 108, 125] ==> ok && list == Some([[110, 117, 108, 108]])
      ensures src == [123, 34, 97, 92, 34, 98, 34, 44, 99, 125] ==> ok && list == Some([[97, 34, 98], [99]])
    {
      ok := ScanItems(src);
      TextsScan(src, ok, list);
    }

    /** The loop of ScanBytes. */
    method ScanItems(src: Bytes) returns (ok: bool)
      modifies this
      ensures ok <==> ReadLinear(src).Some? && None !in ReadLinear(src).value
      ensures ok ==> list.Some? && Some(Strings(list.value)) == ReadLinear(src)
      ensures !ok ==> list == old(list)
    {
      var read := ScanLinearArray(src);
      if read.None? {
        return false;
      }
      var elems := read.value;
      if list.Some? && |elems| == 0 {
        list := Some([]);
        assert Strings([]) == elems;
      } else {
        var b := [];
        for i := 0 to |elems|
          invariant |b| == i && forall k | 0 <= k < i :: elems[k] == Some(b[k])
        {
          if elems[i].None? {
            return false;
          }
          b := b + [elems[i].value];
        }
        list := Some(b);
        assert Strings(b) == elems;
      }
      ok := true;
    }

    method Scan(c: Column) returns (ok: bool)
      modifies this
      ensures ok <==> c.Text? ==> ReadLinear(c.text).Some? && None !in ReadLinear(c.text).value
      ensures ok ==> match c case Null => list == None
                             case Text(t) => list.Some? && Some(Strings(list.value)) == ReadLinear(t)
      ensures !ok ==> list == old(list)
    {
      match c
      case Text(t) =>
        ok := ScanBytes(t);
      case Null =>
        list := None;
        ok := true;
    }

    /** What one array prints, any other array scans to the same list. */
    method CopyThrough(other: LocalStringArray)
      modifies this
      ensures list == old(other.list)
    {
      var c := other.Value();
      if c.Text? {
        RoundTrip(other.list.value);
      }
      var ok := Scan(c);
      assert ok;
      if c.Text? {
        StringsInjective(list.value, old(other.list).value);
      }
    }
  }

  /** What a scan makes of three texts: {NULL} fails, {null} and {"a\"b",c} do not. */
  lemma TextsScan(src: Bytes, ok: bool, list: Option<seq<Bytes>>)
    requires ok <==> ReadLinear(src).Some? && None !in ReadLinear(src).value
    requires ok ==> list.Some? && Some(Strings(list.value)) == ReadLinear(src)
    ensures src == [123, 78, 85, 76, 76, 125] ==> !ok
    ensures src == [123, 110, 117, 108, 108, 125] ==> ok && list == Some([[110, 117, 108, 108]])
    ensures src == [123, 34, 97, 92, 34, 98, 34, 44, 99, 125] ==> ok && list == Some([[97, 34, 98], [99]])
  {
    hide ReadArray;
    TextsRead();
    if src == [123, 110, 117, 108, 108, 125] {
      assert Strings([[110, 117, 108, 108]]) == [Some([110, 117, 108, 108])];
      StringsInjective(list.value, [[110, 117, 108, 108]]);
    }
    if src == [123, 34, 97, 92, 34, 98, 34, 44, 99, 125] {
      assert Strings([[97, 34, 98], [99]]) == [Some([97, 34, 98]), Some([99])];
      StringsInjective(list.value, [[97, 34, 98], [99]]);
    }
  }

  lemma ThreeParts(a: Bytes, b: Bytes, c: Bytes)
    ensures a + [COMMA] + (b + [COMMA] + c) == a + [COMMA] + b + [COMMA] + c
  {
    Assoc(a + [COMMA], b + [COMMA], c);
    Assoc(a + [COMMA], b, [COMMA]);
  }

  lemma {:induction false} KidsTextSnoc(kids: seq<Tree>, last: Tree)
    requires kids != []
    ensures KidsText(kids + [last]) == KidsText(kids) + [COMMA] + TreeText(last)
  {
    hide TreeText;
    var more := kids + [last];
    assert KidsText(more) == TreeText(kids[0]) + [COMMA] + KidsText(more[1..]);
    if |kids| == 1 {
      assert more[1..] == [last];
    } else {
      KidsTextSnoc(kids[1..], last);
      assert more[1..] == kids[1..] + [last];
      ThreeParts(TreeText(kids[0]), KidsText(kids[1..]), TreeText(last));
    }
  }

  function ListText(list: seq<Bytes>): Bytes {
    KidsText(Leafs(ItemsFor(list)))
  }

  lemma FirstItem(a: seq<Bytes>)
    requires a != []
    ensures [OPEN] + ItemText(ItemFor(a[0])) == [OPEN] + ListText(a[..1])
  {
    hide ItemText, ItemFor;
    assert Leafs(ItemsFor(a[..1])) == [Leaf(ItemFor(a[0]))];
    OneKid(Leaf(ItemFor(a[0])));
  }

  lemma NextItem(a: seq<Bytes>, i: nat)
    requires 0 < i < |a|
    ensures [OPEN] + ListText(a[..i]) + [COMMA] + ItemText(ItemFor(a[i])) == [OPEN] + ListText(a[..i + 1])
  {
    hide ItemText, ItemFor;
    var kids, last := Leafs(ItemsFor(a[..i])), Leaf(ItemFor(a[i]));
    assert Leafs(ItemsFor(a[..i + 1])) == kids + [last];
    KidsTextSnoc(kids, last);
    Assoc([OPEN], ListText(a[..i]) + [COMMA], ItemText(ItemFor(a[i])));
    Assoc([OPEN], ListText(a[..i]), [COMMA]);
  }

  lemma ListIsPrinted(a: seq<Bytes>)
    requires a != []
    ensures [OPEN] + ListText(a) + [CLOSE] == Printed(a)
  {
  }
}
