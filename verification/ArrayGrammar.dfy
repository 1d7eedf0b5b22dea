/** The text of a PostgreSQL array of strings: a grammar, a reader of it, and the printer's form. */
module ArrayGrammar {
  import opened Prelude

  newtype Byte = x: int | 0 <= x < 256

  type Bytes = seq<Byte>

  /** An element of a parsed array; None is the unquoted NULL. */
  type Elem = Option<Bytes>

  const OPEN: Byte := 123
  const CLOSE: Byte := 125
  const COMMA: Byte := 44
  const QUOTE: Byte := 34
  const BACKSLASH: Byte := 92
  const NULL: Bytes := [78, 85, 76, 76]

  // ---------------------------------------------------------------------
  // The grammar
  // ---------------------------------------------------------------------

  datatype Piece = Plain(b: Byte) | Escaped(b: Byte)

  datatype Item = Quoted(pieces: seq<Piece>) | Bare(text: Bytes)

  predicate PieceOk(p: Piece) {
    p.Plain? ==> p.b != QUOTE && p.b != BACKSLASH
  }

  predicate ItemOk(it: Item) {
    match it
    case Quoted(ps) => forall p | p in ps :: PieceOk(p)
    case Bare(t) => t != [] && t[0] != OPEN && t[0] != QUOTE && COMMA !in t && CLOSE !in t
  }

  function PieceText(p: Piece): Bytes {
    if p.Plain? then [p.b] else [BACKSLASH, p.b]
  }

  function PiecesText(ps: seq<Piece>): Bytes {
    if ps == [] then [] else PieceText(ps[0]) + PiecesText(ps[1..])
  }

  function PiecesMean(ps: seq<Piece>): Bytes {
    if ps == [] then [] else [ps[0].b] + PiecesMean(ps[1..])
  }

  function ItemText(it: Item): Bytes {
    match it
    case Quoted(ps) => [QUOTE] + PiecesText(ps) + [QUOTE]
    case Bare(t) => t
  }

  function ItemMeans(it: Item): Elem {
    match it
    case Quoted(ps) => Some(PiecesMean(ps))
    case Bare(t) => if t == NULL then None else Some(t)
  }

  /** An array value: elements at the leaves, a pair of braces for each node. */
  datatype Tree = Leaf(item: Item) | Node(kids: seq<Tree>)

  function TreeText(t: Tree): Bytes {
    match t
    case Leaf(it) => ItemText(it)
    case Node(kids) => [OPEN] + KidsText(kids) + [CLOSE]
  }

  function KidsText(kids: seq<Tree>): Bytes {
    if kids == [] then []
    else if |kids| == 1 then TreeText(kids[0])
    else TreeText(kids[0]) + [COMMA] + KidsText(kids[1..])
  }

  function Leaves(t: Tree): seq<Elem> {
    match t
    case Leaf(it) => [ItemMeans(it)]
    case Node(kids) => KidsLeaves(kids)
  }

  function KidsLeaves(kids: seq<Tree>): seq<Elem> {
    if kids == [] then [] else Leaves(kids[0]) + KidsLeaves(kids[1..])
  }

  /** No group is empty, none lies deeper than height, and every element is well written. */
  predicate TreeOk(t: Tree, height: nat) {
    match t
    case Leaf(it) => ItemOk(it)
    case Node(kids) => height > 0 && kids != [] && KidsOk(kids, height - 1)
  }

  predicate KidsOk(kids: seq<Tree>, height: nat) {
    kids == [] || (TreeOk(kids[0], height) && KidsOk(kids[1..], height))
  }

  /** How deep the first element lies. */
  function Spine(t: Tree): nat {
    if t.Leaf? then 0 else if t.kids == [] then 1 else 1 + Spine(t.kids[0])
  }

  /** The size of the last group at this level of the tree. */
  function LastCount(t: Tree, level: nat): Option<nat> {
    match t
    case Leaf(_) => None
    case Node(kids) => if level == 0 then Some(|kids|) else LastAmong(kids, level - 1)
  }

  function LastAmong(kids: seq<Tree>, level: nat): Option<nat> {
    if kids == [] then None
    else if LastAmong(kids[1..], level).Some? then LastAmong(kids[1..], level)
    else LastCount(kids[0], level)
  }

  /** The dimensions are the sizes of the last groups, and each of them divides
      the number of elements: all that is checked of a nested array. */
  ghost predicate Dimensions(t: Tree, dims: seq<nat>) {
    && |dims| == Spine(t)
    && forall j | 0 <= j < |dims| :: LastCount(t, j) == Some(dims[j]) && Divides(dims[j], |Leaves(t)|)
  }

  predicate Divides(d: nat, n: nat) {
    d > 0 && n % d == 0
  }

  /** src writes the array t, which has these dimensions and elements. */
  ghost predicate IsArray(src: Bytes, t: Tree, dims: seq<nat>, elems: seq<Elem>) {
    && t.Node? && TreeOk(t, |dims|) && Dimensions(t, dims)
    && src == TreeText(t) && elems == Leaves(t)
  }

  function Repeat(b: Byte, k: nat): Bytes {
    seq(k, _ => b)
  }

  /** `{}`, `{{}}` and so on: each reads as the empty array. */
  ghost predicate IsEmptyLiteral(src: Bytes, k: nat) {
    0 < k && src == Repeat(OPEN, k) + Repeat(CLOSE, k)
  }

  // ---------------------------------------------------------------------
  // A recursive reader
  // ---------------------------------------------------------------------

  function Before(prefix: Bytes, r: Option<(Bytes, Bytes)>): Option<(Bytes, Bytes)> {
    if r.None? then None else Some((prefix + r.value.0, r.value.1))
  }

  /** After an opening quote: the bytes up to the closing one, and the rest. */
  function ReadQuoted(s: Bytes): Option<(Bytes, Bytes)> {
    if s == [] then None
    else if s[0] == QUOTE then Some(([], s[1..]))
    else if s[0] == BACKSLASH then (if |s| == 1 then None else Before([s[1]], ReadQuoted(s[2..])))
    else Before([s[0]], ReadQuoted(s[1..]))
  }

  predicate EndsBare(b: Byte) {
    b == COMMA || b == CLOSE
  }

  /** The length of the run of bytes before the next comma or closing brace. */
  function BareLength(s: Bytes): (j: nat)
    ensures j <= |s| && (forall k | 0 <= k < j :: !EndsBare(s[k])) && (j < |s| ==> EndsBare(s[j]))
  {
    if s == [] || EndsBare(s[0]) then 0 else 1 + BareLength(s[1..])
  }

  /** One element and the rest of the text. */
  function ReadItem(s: Bytes): Option<(Elem, Bytes)> {
    if s == [] || s[0] == OPEN then None
    else if s[0] == QUOTE then
      var q := ReadQuoted(s[1..]);
      if q.None? then None else Some((Some(q.value.0), q.value.1))
    else
      var j := BareLength(s);
      if j == 0 || j == |s| then None else Some((if s[..j] == NULL then None else Some(s[..j]), s[j..]))
  }

  lemma ReadItemShrinks(s: Bytes)
    ensures ReadItem(s).Some? ==> |ReadItem(s).value.1| < |s|
  {
    if s != [] && s[0] == QUOTE {
      ReadQuotedShrinks(s[1..]);
    }
  }

  lemma {:induction false} ReadQuotedShrinks(s: Bytes)
    ensures ReadQuoted(s).Some? ==> |ReadQuoted(s).value.1| < |s|
  {
    if s != [] && s[0] != QUOTE {
      if s[0] != BACKSLASH {
        ReadQuotedShrinks(s[1..]);
      } else if |s| > 1 {
        ReadQuotedShrinks(s[2..]);
      }
    }
  }

  /** One more element or group at this level. */
  function Bump(dims: seq<nat>, level: nat): seq<nat>
    requires level < |dims|
  {
    dims[level := dims[level] + 1]
  }

  /** From the start of an element inside depth open groups, to the end of the text. */
  function ReadElement(s: Bytes, depth: nat, dims: seq<nat>, elems: seq<Elem>): Option<(seq<nat>, seq<Elem>)>
    requires depth <= |dims|
    decreases |s|, 1
  {
    if s == [] then None
    else if s[0] == OPEN then
      if depth == |dims| then None else ReadElement(s[1..], depth + 1, dims[depth := 0], elems)
    else
      var r := ReadItem(s);
      ReadItemShrinks(s);
      if r.None? then None else ReadMore(r.value.1, depth, dims, elems + [r.value.0])
  }

  /** What may follow an element. */
  function ReadMore(s: Bytes, depth: nat, dims: seq<nat>, elems: seq<Elem>): Option<(seq<nat>, seq<Elem>)>
    requires depth <= |dims|
    decreases |s|, 0
  {
    if depth == 0 then (if s == [] then Some((dims, elems)) else None)
    else if s == [] then None
    else if s[0] == COMMA then ReadElement(s[1..], depth, Bump(dims, depth - 1), elems)
    else if s[0] == CLOSE then ReadMore(s[1..], depth - 1, Bump(dims, depth - 1), elems)
    else None
  }

  function Opens(s: Bytes): (k: nat)
    ensures k <= |s| && (forall j | 0 <= j < k :: s[j] == OPEN) && (k < |s| ==> s[k] != OPEN)
  {
    if s == [] || s[0] != OPEN then 0 else 1 + Opens(s[1..])
  }

  function Zeros(k: nat): seq<nat> {
    seq(k, _ => 0)
  }

  /** The dimensions and elements of an array literal. */
  ghost function ReadArray(src: Bytes): Option<(seq<nat>, seq<Elem>)> {
    var k := Opens(src);
    if k == 0 then None
    else if k < |src| && src[k] == CLOSE then (if src[k..] == Repeat(CLOSE, k) then Some(([], [])) else None)
    else
      var r := ReadElement(src[k..], k, Zeros(k), []);
      if r.Some? && forall j | 0 <= j < |r.value.0| :: Divides(r.value.0[j], |r.value.1|) then r else None
  }

  lemma Assoc<T>(a: seq<T>, b: seq<T>, c: seq<T>)
    ensures a + b + c == a + (b + c)
  {
  }

  // ---------------------------------------------------------------------
  // Items
  // ---------------------------------------------------------------------

  lemma {:induction false} ReadsPieces(ps: seq<Piece>, rest: Bytes)
    requires forall p | p in ps :: PieceOk(p)
    ensures ReadQuoted(PiecesText(ps) + [QUOTE] + rest) == Some((PiecesMean(ps), rest))
  {
    var s := PiecesText(ps) + [QUOTE] + rest;
    if ps == [] {
      assert s[1..] == rest;
    } else {
      var tail := PiecesText(ps[1..]) + [QUOTE] + rest;
      assert PieceOk(ps[0]) && s == PieceText(ps[0]) + tail;
      assert s[|PieceText(ps[0])|..] == tail;
      ReadsPieces(ps[1..], rest);
    }
  }

  lemma {:induction false} PiecesOf(s: Bytes) returns (ps: seq<Piece>)
    requires ReadQuoted(s).Some?
    ensures forall p | p in ps :: PieceOk(p)
    ensures s == PiecesText(ps) + [QUOTE] + ReadQuoted(s).value.1 && PiecesMean(ps) == ReadQuoted(s).value.0
    decreases |s|
  {
    if s[0] == QUOTE {
      ps := [];
      assert s == [QUOTE] + s[1..];
    } else {
      var first := if s[0] == BACKSLASH then Escaped(s[1]) else Plain(s[0]);
      var tail := s[|PieceText(first)|..];
      var more := PiecesOf(tail);
      ps := [first] + more;
      assert s == PieceText(first) + tail;
      MorePieces(first, more);
      Assoc(PieceText(first), PiecesText(more) + [QUOTE], ReadQuoted(s).value.1);
      Assoc(PieceText(first), PiecesText(more), [QUOTE]);
    }
  }

  lemma MorePieces(first: Piece, more: seq<Piece>)
    ensures PiecesText([first] + more) == PieceText(first) + PiecesText(more)
    ensures PiecesMean([first] + more) == [first.b] + PiecesMean(more)
  {
    assert ([first] + more)[1..] == more;
  }

  lemma BareLengthIs(t: Bytes, rest: Bytes)
    requires COMMA !in t && CLOSE !in t && rest != [] && EndsBare(rest[0])
    ensures BareLength(t + rest) == |t|
  {
    var s := t + rest;
    assert s[|t|] == rest[0];
    assert forall k | 0 <= k < |t| :: s[k] == t[k] && t[k] in t;
  }

  lemma ReadsItem(it: Item, rest: Bytes)
    requires ItemOk(it) && rest != [] && EndsBare(rest[0])
    ensures ReadItem(ItemText(it) + rest) == Some((ItemMeans(it), rest))
  {
    match it
    case Quoted(ps) => ReadsQuoted(ps, rest);
    case Bare(t) => ReadsBare(t, rest);
  }

  lemma ReadsQuoted(ps: seq<Piece>, rest: Bytes)
    requires ItemOk(Quoted(ps))
    ensures ReadItem(ItemText(Quoted(ps)) + rest) == Some((Some(PiecesMean(ps)), rest))
  {
    hide PiecesText, PiecesMean, ReadQuoted;
    var s := ItemText(Quoted(ps)) + rest;
    ReadsPieces(ps, rest);
    assert s[1..] == PiecesText(ps) + [QUOTE] + rest;
  }

  lemma ReadsBare(t: Bytes, rest: Bytes)
    requires ItemOk(Bare(t)) && rest != [] && EndsBare(rest[0])
    ensures ReadItem(t + rest) == Some((ItemMeans(Bare(t)), rest))
  {
    var s := t + rest;
    BareLengthIs(t, rest);
    assert s[0] == t[0] && s[..|t|] == t && s[|t|..] == rest;
  }

  lemma ItemOf(s: Bytes) returns (it: Item)
    requires ReadItem(s).Some?
    ensures ItemOk(it) && ItemMeans(it) == ReadItem(s).value.0 && s == ItemText(it) + ReadItem(s).value.1
  {
    if s[0] == QUOTE {
      var ps := PiecesOf(s[1..]);
      it := Quoted(ps);
      assert s == [QUOTE] + s[1..];
    } else {
      var j := BareLength(s);
      it := Bare(s[..j]);
      assert s == s[..j] + s[j..];
    }
  }


  // ---------------------------------------------------------------------
  // The reader accepts the grammar
  // ---------------------------------------------------------------------

  function Latest(d: nat, count: Option<nat>): nat {
    if count.Some? then count.value else d
  }

  /** The counts after reading tree t inside depth open groups. */
  function Recount(dims: seq<nat>, t: Tree, depth: nat): (r: seq<nat>)
    ensures |r| == |dims|
  {
    seq(|dims|, j requires 0 <= j < |dims| => if j < depth then dims[j] else Latest(dims[j], LastCount(t, j - depth)))
  }

  function RecountKids(dims: seq<nat>, kids: seq<Tree>, depth: nat): (r: seq<nat>)
    ensures |r| == |dims|
  {
    seq(|dims|, j requires 0 <= j < |dims| => if j < depth then dims[j] else Latest(dims[j], LastAmong(kids,
      j - depth)))
  }

  /** The counts once the group that holds kids is closed. */
  function RecountGroup(dims: seq<nat>, kids: seq<Tree>, depth: nat): (r: seq<nat>)
    requires 0 < depth <= |dims|
    ensures |r| == |dims|
  {
    RecountKids(dims, kids, depth)[depth - 1 := dims[depth - 1] + |kids|]
  }

  lemma RecountNode(dims: seq<nat>, kids: seq<Tree>, depth: nat)
    requires depth < |dims|
    ensures Recount(dims, Node(kids), depth) == RecountGroup(dims[depth := 0], kids, depth + 1)
  {
  }

  lemma RecountOne(dims: seq<nat>, t: Tree, depth: nat)
    requires 0 < depth <= |dims|
    ensures Bump(Recount(dims, t, depth), depth - 1) == RecountGroup(dims, [t], depth)
  {
    assert [t][1..] == [];
    assert forall level: nat :: LastAmong([t], level) == LastCount(t, level);
  }

  lemma RecountFirst(dims: seq<nat>, kids: seq<Tree>, depth: nat)
    requires 0 < depth <= |dims| && kids != []
    ensures RecountGroup(Bump(Recount(dims, kids[0], depth), depth - 1), kids[1..], depth)
            == RecountGroup(dims, kids, depth)
  {
  }

  lemma OpenGroup(kids: seq<Tree>, rest: Bytes, depth: nat, dims: seq<nat>, elems: seq<Elem>)
    requires depth < |dims|
    ensures ReadElement(TreeText(Node(kids)) + rest, depth, dims, elems)
            == ReadElement(KidsText(kids) + [CLOSE] + rest, depth + 1, dims[depth := 0], elems)
  {
    hide KidsText;
    var s := TreeText(Node(kids)) + rest;
    assert s == [OPEN] + (KidsText(kids) + [CLOSE] + rest);
    assert s[1..] == KidsText(kids) + [CLOSE] + rest;
  }

  lemma KidsTextFirst(kids: seq<Tree>, rest: Bytes)
    requires |kids| > 1
    ensures KidsText(kids) + [CLOSE] + rest == TreeText(kids[0]) + ([COMMA] + (KidsText(kids[1..]) + [CLOSE] + rest))
  {
    hide TreeText;
    var first, more := TreeText(kids[0]), KidsText(kids[1..]);
    Assoc(first + [COMMA] + more, [CLOSE], rest);
    Assoc(first + [COMMA], more, [CLOSE] + rest);
    Assoc(first, [COMMA], more + ([CLOSE] + rest));
    Assoc(more, [CLOSE], rest);
  }

  lemma ReadComma(rest: Bytes, depth: nat, dims: seq<nat>, elems: seq<Elem>)
    requires 0 < depth <= |dims|
    ensures ReadMore([COMMA] + rest, depth, dims, elems) == ReadElement(rest, depth, Bump(dims, depth - 1), elems)
  {
    assert ([COMMA] + rest)[1..] == rest;
  }

  lemma ReadClose(rest: Bytes, depth: nat, dims: seq<nat>, elems: seq<Elem>)
    requires 0 < depth <= |dims|
    ensures ReadMore([CLOSE] + rest, depth, dims, elems) == ReadMore(rest, depth - 1, Bump(dims, depth - 1), elems)
  {
    assert ([CLOSE] + rest)[1..] == rest;
  }

  /** A well-written tree is read as its elements and the sizes of its last groups. */
  lemma {:induction false} ReadsTree(t: Tree, rest: Bytes, depth: nat, dims: seq<nat>, elems: seq<Elem>)
    requires depth <= |dims| && TreeOk(t, |dims| - depth) && rest != [] && EndsBare(rest[0])
    ensures ReadElement(TreeText(t) + rest, depth, dims, elems)
            == ReadMore(rest, depth, Recount(dims, t, depth), elems + Leaves(t))
    decreases t, 0
  {
    match t
    case Leaf(it) =>
      ReadsItem(it, rest);
      ItemStart(it, rest);
      assert Recount(dims, t, depth) == dims;
    case Node(kids) =>
      OpenGroup(kids, rest, depth, dims, elems);
      ReadsKids(kids, rest, depth + 1, dims[depth := 0], elems);
      RecountNode(dims, kids, depth);
  }

  lemma ItemStart(it: Item, rest: Bytes)
    requires ItemOk(it)
    ensures ItemText(it) != [] && (ItemText(it) + rest)[0] != OPEN && (ItemText(it) + rest)[0] != CLOSE
  {
    var s := ItemText(it);
    assert s != [] && s[0] in s && (s + rest)[0] == s[0];
  }

  lemma {:induction false} ReadsKids(kids: seq<Tree>, rest: Bytes, depth: nat, dims: seq<nat>, elems: seq<Elem>)
    requires 0 < depth <= |dims| && kids != [] && KidsOk(kids, |dims| - depth)
    ensures ReadElement(KidsText(kids) + [CLOSE] + rest, depth, dims, elems)
            == ReadMore(rest, depth - 1, RecountGroup(dims, kids, depth), elems + KidsLeaves(kids))
    decreases kids, 1
  {
    hide ReadElement, ReadMore, TreeText, Recount, RecountGroup;
    var counts, seen := Recount(dims, kids[0], depth), elems + Leaves(kids[0]);
    if |kids| == 1 {
      Assoc(TreeText(kids[0]), [CLOSE], rest);
      ReadsTree(kids[0], [CLOSE] + rest, depth, dims, elems);
      ReadClose(rest, depth, counts, seen);
      RecountOne(dims, kids[0], depth);
      assert kids == [kids[0]] && kids[1..] == [];
      assert Leaves(kids[0]) + [] == Leaves(kids[0]);
    } else {
      var tail := KidsText(kids[1..]) + [CLOSE] + rest;
      KidsTextFirst(kids, rest);
      ReadsTree(kids[0], [COMMA] + tail, depth, dims, elems);
      ReadComma(tail, depth, counts, seen);
      ReadsKids(kids[1..], rest, depth, Bump(counts, depth - 1), seen);
      RecountFirst(dims, kids, depth);
      Assoc(elems, Leaves(kids[0]), KidsLeaves(kids[1..]));
    }
  }

  lemma OpensOfRepeat(k: nat, rest: Bytes)
    requires rest == [] || rest[0] != OPEN
    ensures Opens(Repeat(OPEN, k) + rest) == k
  {
    var s := Repeat(OPEN, k) + rest;
    assert forall i | 0 <= i < k :: s[i] == OPEN;
    assert rest != [] ==> s[k] == rest[0];
  }

  lemma OpensMore(s: Bytes)
    ensures Opens([OPEN] + s) == 1 + Opens(s)
  {
    assert ([OPEN] + s)[1..] == s;
  }

  /** A tree begins with as many braces as its first element is deep. */
  lemma {:induction false} OpensOfTree(t: Tree, height: nat, rest: Bytes)
    requires TreeOk(t, height)
    ensures var s := TreeText(t) + rest;
            Opens(s) == Spine(t) <= height && Spine(t) < |s| && s[Spine(t)] != CLOSE
  {
    var s := TreeText(t) + rest;
    match t
    case Leaf(it) =>
      ItemStart(it, rest);
    case Node(kids) =>
      var tail := if |kids| == 1 then [CLOSE] + rest else [COMMA] + (KidsText(kids[1..]) + [CLOSE] + rest);
      var inner := TreeText(kids[0]) + tail;
      OpensOfTree(kids[0], height - 1, tail);
      NodeText(kids, rest);
      OpensMore(inner);
      assert s[1..] == inner;
  }

  lemma NodeText(kids: seq<Tree>, rest: Bytes)
    requires kids != []
    ensures TreeText(Node(kids)) + rest ==
            [OPEN] + (TreeText(kids[0]) + if |kids| == 1 then [CLOSE] + rest
                                          else [COMMA] + (KidsText(kids[1..]) + [CLOSE] + rest))
  {
    hide KidsText;
    Assoc([OPEN], KidsText(kids), [CLOSE]);
    Assoc([OPEN], KidsText(kids) + [CLOSE], rest);
    if |kids| == 1 {
      assert KidsText(kids) == TreeText(kids[0]) by { OneKid(kids[0]); assert kids == [kids[0]]; }
      Assoc(TreeText(kids[0]), [CLOSE], rest);
    } else {
      KidsTextFirst(kids, rest);
    }
  }

  lemma OneKid(t: Tree)
    ensures KidsText([t]) == TreeText(t)
  {
  }

  /** Opening braces in a row reset counts that are zero. */
  lemma {:induction false} SkipOpens(s: Bytes, depth: nat, k: nat, elems: seq<Elem>)
    requires depth <= k && k - depth <= |s| && forall j | 0 <= j < k - depth :: s[j] == OPEN
    ensures ReadElement(s, depth, Zeros(k), elems) == ReadElement(s[k - depth..], k, Zeros(k), elems)
    decreases k - depth
  {
    if depth == k {
      assert s[0..] == s;
    } else {
      assert Zeros(k)[depth := 0] == Zeros(k);
      SkipOpens(s[1..], depth + 1, k, elems);
      assert s[1..][k - depth - 1..] == s[k - depth..];
    }
  }

  lemma {:induction false} LevelsOfSpine(t: Tree, level: nat)
    requires level < Spine(t)
    ensures LastCount(t, level).Some?
  {
    if level == 0 {
      assert t.Node?;
    } else {
      if t.kids != [] {
        LevelsOfSpine(t.kids[0], level - 1);
      }
    }
  }

  lemma TopCounts(kids: seq<Tree>, dims: seq<nat>)
    requires dims == RecountGroup(Zeros(Spine(Node(kids))), kids, 1) && kids != []
    ensures |dims| == Spine(Node(kids)) && forall j | 0 <= j < |dims| :: LastCount(Node(kids), j) == Some(dims[j])
  {
    var t := Node(kids);
    forall j | 0 <= j < |dims|
      ensures LastCount(t, j) == Some(dims[j])
    {
      LevelsOfSpine(t, j);
    }
  }

  /** What reading a whole tree from its first brace gives. */
  lemma ReadsWhole(t: Tree, dims: seq<nat>)
    requires t.Node? && TreeOk(t, Spine(t)) && dims == RecountGroup(Zeros(Spine(t)), t.kids, 1)
    ensures var (src, k) := (TreeText(t), Spine(t));
            Opens(src) == k < |src| && src[k] != CLOSE
            && ReadElement(src[k..], k, Zeros(k), []) == Some((dims, Leaves(t)))
  {
    hide ReadElement, Opens, RecountGroup, KidsText, KidsLeaves, ReadItem;
    var src, k := TreeText(t), Spine(t);
    assert src + [] == src;
    OpensOfTree(t, k, []);
    assert src == [OPEN] + KidsText(t.kids) + [CLOSE];
    assert src[1..] == KidsText(t.kids) + [CLOSE] + [];
    ReadsKids(t.kids, [], 1, Zeros(k), []);
    SkipOpens(src[1..], 1, k, []);
    assert src[1..][k - 1..] == src[k..];
    assert [] + Leaves(t) == Leaves(t);
  }

  lemma ReadsArrayText(src: Bytes, t: Tree, dims: seq<nat>, elems: seq<Elem>)
    requires IsArray(src, t, dims, elems)
    ensures ReadArray(src) == Some((dims, elems))
  {
    var counts := RecountGroup(Zeros(Spine(t)), t.kids, 1);
    ReadsWhole(t, counts);
    TopCounts(t.kids, counts);
    assert forall j | 0 <= j < |dims| :: LastCount(t, j) == Some(dims[j]);
    assert counts == dims;
  }

  // ---------------------------------------------------------------------
  // ... and nothing else
  // ---------------------------------------------------------------------

  lemma {:induction false} TreeOf(s: Bytes, depth: nat, dims: seq<nat>, elems: seq<Elem>) returns (t: Tree, rest: Bytes)
    requires 0 < depth <= |dims| && ReadElement(s, depth, dims, elems).Some?
    ensures TreeOk(t, |dims| - depth) && rest != [] && EndsBare(rest[0]) && s == TreeText(t) + rest && |rest| < |s|
    decreases |s|, 0
  {
    if s[0] == OPEN {
      var kids: seq<Tree>;
      kids, rest := KidsOf(s[1..], depth + 1, dims[depth := 0], elems);
      t := Node(kids);
      ReadsKids(kids, rest, depth + 1, dims[depth := 0], elems);
      assert s == [OPEN] + s[1..];
      Assoc([OPEN], KidsText(kids) + [CLOSE], rest);
      Assoc([OPEN], KidsText(kids), [CLOSE]);
    } else {
      var it := ItemOf(s);
      t, rest := Leaf(it), ReadItem(s).value.1;
      ReadItemShrinks(s);
    }
  }

  lemma {:induction false} KidsOf(s: Bytes, depth: nat, dims: seq<nat>, elems: seq<Elem>)
    returns (kids: seq<Tree>, rest: Bytes)
    requires 0 < depth <= |dims| && ReadElement(s, depth, dims, elems).Some?
    ensures kids != [] && KidsOk(kids, |dims| - depth) && s == KidsText(kids) + [CLOSE] + rest && |rest| < |s|
    decreases |s|, 1
  {
    hide TreeText, TreeOk, KidsText, Recount;
    var t, after := TreeOf(s, depth, dims, elems);
    ReadsTree(t, after, depth, dims, elems);
    assert after == [after[0]] + after[1..];
    if after[0] == COMMA {
      var counts, seen := Recount(dims, t, depth), elems + Leaves(t);
      ReadComma(after[1..], depth, counts, seen);
      var more;
      more, rest := KidsOf(after[1..], depth, Bump(counts, depth - 1), seen);
      kids := [t] + more;
      assert kids[1..] == more;
      KidsTextFirst(kids, rest);
    } else {
      kids, rest := [t], after[1..];
      OneKid(t);
      Assoc(TreeText(t), [CLOSE], rest);
    }
    KidsOkIs(kids, |dims| - depth);
  }

  lemma KidsOkIs(kids: seq<Tree>, height: nat)
    requires kids != []
    ensures KidsOk(kids, height) <==> TreeOk(kids[0], height) && (kids[1..] == [] || KidsOk(kids[1..], height))
  {
  }

  lemma WholeText(src: Bytes, kids: seq<Tree>, rest: Bytes)
    requires src != [] && src[0] == OPEN && src[1..] == KidsText(kids) + [CLOSE] + rest && rest == []
    ensures src == TreeText(Node(kids)) == TreeText(Node(kids)) + []
  {
    hide KidsText;
    assert src == [OPEN] + src[1..];
    assert KidsText(kids) + [CLOSE] + [] == KidsText(kids) + [CLOSE];
    Assoc([OPEN], KidsText(kids), [CLOSE]);
  }

  lemma ArrayOf(src: Bytes) returns (t: Tree)
    requires ReadArray(src).Some? && Opens(src) < |src| && src[Opens(src)] != CLOSE
    ensures IsArray(src, t, ReadArray(src).value.0, ReadArray(src).value.1)
  {
    hide KidsText, TreeText, KidsOk, ReadElement, Leaves;
    var k := Opens(src);
    SkipOpens(src[1..], 1, k, []);
    assert src[1..][k - 1..] == src[k..];
    var kids, rest := KidsOf(src[1..], 1, Zeros(k), []);
    ReadsKids(kids, rest, 1, Zeros(k), []);
    t := Node(kids);
    WholeText(src, kids, rest);
    OpensOfTree(t, k, []);
    TopCounts(kids, ReadArray(src).value.0);
    NodeLeaves(kids);
  }

  lemma NodeLeaves(kids: seq<Tree>)
    ensures Leaves(Node(kids)) == [] + KidsLeaves(kids)
  {
  }

  /** The reader accepts exactly the texts of well-written trees whose elements lie
      at most as deep as the first one and whose last groups have sizes that divide
      the number of elements, and the nested empty braces. */
  lemma ReadsExactlyArrays(src: Bytes, dims: seq<nat>, elems: seq<Elem>)
    ensures ReadArray(src) == Some((dims, elems)) <==>
            || (exists t :: IsArray(src, t, dims, elems))
            || (dims == [] && elems == [] && exists k: nat :: IsEmptyLiteral(src, k))
  {
    hide IsArray, ReadElement;
    if ReadArray(src) == Some((dims, elems)) {
      var k := Opens(src);
      if k < |src| && src[k] != CLOSE {
        var t := ArrayOf(src);
      } else if k < |src| {
        assert src == src[..k] + src[k..] && src[..k] == Repeat(OPEN, k);
        assert IsEmptyLiteral(src, k);
      } else {
        assert src[k..] == [];
        NothingToRead(k);
      }
    }
    if t :| IsArray(src, t, dims, elems) {
      ReadsArrayText(src, t, dims, elems);
    }
    if dims == [] && elems == [] && exists k: nat :: IsEmptyLiteral(src, k) {
      var k: nat :| IsEmptyLiteral(src, k);
      ReadsEmpty(src, k);
    }
  }

  lemma NothingToRead(k: nat)
    ensures ReadElement([], k, Zeros(k), []) == None
  {
  }

  lemma ReadsEmpty(src: Bytes, k: nat)
    requires IsEmptyLiteral(src, k)
    ensures ReadArray(src) == Some(([], []))
  {
    OpensOfRepeat(k, Repeat(CLOSE, k));
    assert src[k..] == Repeat(CLOSE, k);
  }

  // ---------------------------------------------------------------------
  // Nested arrays: what the check on dimensions lets through
  // ---------------------------------------------------------------------

  /** Every group of one level has the same size. */
  predicate Rectangular(t: Tree, shape: seq<nat>) {
    match t
    case Leaf(_) => shape == []
    case Node(kids) => shape != [] && |kids| == shape[0] && AllRectangular(kids, shape[1..])
  }

  predicate AllRectangular(kids: seq<Tree>, shape: seq<nat>) {
    kids == [] || (Rectangular(kids[0], shape) && AllRectangular(kids[1..], shape))
  }

  function Product(shape: seq<nat>): nat {
    if shape == [] then 1 else shape[0] * Product(shape[1..])
  }

  predicate Positive(shape: seq<nat>) {
    forall j | 0 <= j < |shape| :: shape[j] > 0
  }

  lemma {:induction false} RectangularCounts(t: Tree, shape: seq<nat>)
    requires Rectangular(t, shape) && Positive(shape)
    ensures Spine(t) == |shape| && |Leaves(t)| == Product(shape)
    ensures forall j | 0 <= j < |shape| :: LastCount(t, j) == Some(shape[j])
    decreases t, 0
  {
    match t
    case Leaf(_) =>
    case Node(kids) =>
      assert Positive(shape[1..]);
      RectangularKids(kids, shape[1..]);
      RectangularCounts(kids[0], shape[1..]);
      forall j | 0 < j < |shape| ensures LastCount(t, j) == Some(shape[j]) { assert shape[1..][j - 1] == shape[j]; }
  }

  lemma {:induction false} RectangularKids(kids: seq<Tree>, shape: seq<nat>)
    requires AllRectangular(kids, shape) && Positive(shape)
    ensures |KidsLeaves(kids)| == |kids| * Product(shape)
    ensures kids != [] ==> forall j | 0 <= j < |shape| :: LastAmong(kids, j) == Some(shape[j])
    decreases kids, 1
  {
    if kids == [] {
    } else {
      RectangularCounts(kids[0], shape);
      RectangularKids(kids[1..], shape);
      OneMoreTimes(|kids| - 1, Product(shape));
    }
  }

  lemma OneMoreTimes(n: nat, p: nat)
    ensures (n + 1) * p == n * p + p
  {
  }

  lemma {:induction false} FactorOf(shape: seq<nat>, j: nat) returns (q: nat)
    requires j < |shape|
    ensures Product(shape) == shape[j] * q
  {
    if j == 0 {
      q := Product(shape[1..]);
    } else {
      var p := FactorOf(shape[1..], j - 1);
      q := shape[0] * p;
      Rotate(shape[0], shape[j], p);
    }
  }

  lemma Rotate(a: nat, b: nat, c: nat)
    ensures a * (b * c) == b * (a * c)
  {
  }

  lemma SmallMultiple(d: nat, m: int, x: nat)
    requires d * m == x < d
    ensures x == 0
  {
    if m >= 1 {
      MultipleAtLeast(d, m);
    }
  }

  lemma MultipleAtLeast(d: nat, m: int)
    requires m >= 1
    ensures d * m >= d
  {
  }

  lemma MultipleDivides(d: nat, q: nat)
    requires d > 0
    ensures Divides(d, d * q)
  {
    var y, x := (d * q) / d, (d * q) % d;
    assert d * (q - y) == x;
    SmallMultiple(d, q - y, x);
  }

  /** Every rectangular array is accepted, with its shape as dimensions. */
  lemma RectangularIsAccepted(t: Tree, shape: seq<nat>)
    requires t.Node? && TreeOk(t, |shape|) && Rectangular(t, shape) && Positive(shape)
    ensures ReadArray(TreeText(t)) == Some((shape, Leaves(t)))
  {
    RectangularCounts(t, shape);
    forall j | 0 <= j < |shape|
      ensures Divides(shape[j], |Leaves(t)|)
    {
      var q := FactorOf(shape, j);
      MultipleDivides(shape[j], q);
    }
    ReadsArrayText(TreeText(t), t, shape, Leaves(t));
  }

  /** An accepted array is rectangular only if its dimensions multiply to the number of elements. */
  lemma RectangularHasProduct(src: Bytes, t: Tree, dims: seq<nat>, elems: seq<Elem>, shape: seq<nat>)
    requires IsArray(src, t, dims, elems) && Rectangular(t, shape) && Positive(shape)
    ensures shape == dims && |elems| == Product(dims)
  {
    RectangularCounts(t, shape);
    assert forall j | 0 <= j < |dims| :: LastCount(t, j) == Some(dims[j]);
  }

  const UNEQUAL: Bytes := [OPEN, OPEN, 97, COMMA, 98, COMMA, 99, CLOSE, COMMA, OPEN, 100, CLOSE, CLOSE]

  /** `{{a,b,c},{d}}` is accepted with the dimensions 2 and 1, though its groups
      hold three elements and one. */
  lemma UnequalIsAccepted(elems: seq<Elem>)
    requires elems == [Some([97]), Some([98]), Some([99]), Some([100])]
    ensures ReadArray(UNEQUAL) == Some(([2, 1], elems))
    ensures forall t, shape | IsArray(UNEQUAL, t, [2, 1], elems) && Positive(shape) :: !Rectangular(t, shape)
  {
    var t := UnequalTree(elems);
    ReadsArrayText(UNEQUAL, t, [2, 1], elems);
    hide IsArray, Rectangular, ReadArray;
    forall t, shape | IsArray(UNEQUAL, t, [2, 1], elems) && Positive(shape)
      ensures !Rectangular(t, shape)
    {
      if Rectangular(t, shape) {
        RectangularHasProduct(UNEQUAL, t, [2, 1], elems, shape);
        ProductOfTwo(2, 1);
      }
    }
  }

  lemma ProductOfTwo(a: nat, b: nat)
    ensures Product([a, b]) == a * b
  {
    assert [a, b][1..] == [b] && [b][1..] == [];
    assert Product([b]) == b * Product([]);
  }

  /** The tree of that text. */
  lemma UnequalTree(elems: seq<Elem>) returns (t: Tree)
    requires elems == [Some([97]), Some([98]), Some([99]), Some([100])]
    ensures IsArray(UNEQUAL, t, [2, 1], elems)
  {
    var a, d := Row([Bare([97]), Bare([98]), Bare([99])]), Row([Bare([100])]);
    RowReads([Bare([97]), Bare([98]), Bare([99])], 1);
    RowReads([Bare([100])], 1);
    UnequalTexts();
    t := Node([a, d]);
    hide Row, TreeText;
    PairOfRows(a, d, 1);
    assert Leaves(t) == elems;
    assert UNEQUAL == [OPEN] + (TreeText(a) + [COMMA] + TreeText(d)) + [CLOSE];
  }

  lemma PairOfRows(a: Tree, d: Tree, m: nat)
    requires TreeOk(a, 1) && TreeOk(d, 1) && LastCount(d, 0) == Some(m)
    ensures TreeText(Node([a, d])) == [OPEN] + (TreeText(a) + [COMMA] + TreeText(d)) + [CLOSE]
    ensures TreeOk(Node([a, d]), 2) && Leaves(Node([a, d])) == Leaves(a) + Leaves(d)
    ensures LastCount(Node([a, d]), 0) == Some(2) && LastCount(Node([a, d]), 1) == Some(m)
    ensures Spine(Node([a, d])) == 1 + Spine(a)
  {
    assert [a, d][1..] == [d] && [d][1..] == [];
    OneKid(d);
    assert KidsOk([], 1) && KidsOk([d], 1);
    assert KidsLeaves([d]) == Leaves(d) + [] == Leaves(d);
    assert LastAmong([], 0) == None && LastAmong([d], 0) == Some(m);
  }

  /** `{{a},{b,c}}` is rejected: its dimensions would be 2 and 2, and it has three elements. */
  lemma UnequalIsRejected()
    ensures ReadArray([123, 123, 97, 125, 44, 123, 98, 44, 99, 125, 125]) == None
  {
    var t := OddTree();
    OddIsRejected(t);
  }

  lemma OddTree() returns (t: Tree)
    ensures t.Node? && t.kids != [] && TreeOk(t, Spine(t)) && LastCount(t, 0) == Some(2) && |Leaves(t)| == 3
    ensures TreeText(t) == [123, 123, 97, 125, 44, 123, 98, 44, 99, 125, 125]
  {
    var a, d := Row([Bare([97])]), Row([Bare([98]), Bare([99])]);
    RowReads([Bare([97])], 1);
    RowReads([Bare([98]), Bare([99])], 1);
    OddTexts();
    t := Node([a, d]);
    hide Row, TreeText, ItemsMean;
    PairOfRows(a, d, 2);
    assert TreeText(t) == [123] + ([123, 97, 125] + [44] + [123, 98, 44, 99, 125]) + [125];
  }

  lemma OddTexts()
    ensures TreeText(Row([Bare([97])])) == [123, 97, 125]
    ensures TreeText(Row([Bare([98]), Bare([99])])) == [123, 98, 44, 99, 125]
    ensures |ItemsMean([Bare([97])])| == 1 && |ItemsMean([Bare([98]), Bare([99])])| == 2
  {
    OneItemRow(Bare([97]));
    TwoItemRow(Bare([98]), Bare([99]));
    hide TreeText, ItemsMean;
  }

  lemma OddIsRejected(t: Tree)
    requires t.Node? && t.kids != [] && TreeOk(t, Spine(t)) && LastCount(t, 0) == Some(2) && |Leaves(t)| % 2 != 0
    ensures ReadArray(TreeText(t)) == None
  {
    hide ReadElement, Opens, RecountGroup, LastCount, Leaves, TreeText, Spine, TreeOk;
    SpineIsPositive(t);
    var dims := RecountGroup(Zeros(Spine(t)), t.kids, 1);
    ReadsWhole(t, dims);
    TopCounts(t.kids, dims);
    assert t == Node(t.kids);
    assert !Divides(dims[0], |Leaves(t)|);
  }

  lemma SpineIsPositive(t: Tree)
    requires t.Node?
    ensures Spine(t) > 0
  {
  }

  lemma UnequalTexts()
    ensures TreeText(Row([Bare([97]), Bare([98]), Bare([99])])) == [OPEN, 97, COMMA, 98, COMMA, 99, CLOSE]
    ensures TreeText(Row([Bare([100])])) == [OPEN, 100, CLOSE]
  {
    var a, b, c := Leaf(Bare([97])), Leaf(Bare([98])), Leaf(Bare([99]));
    assert Leafs([Bare([97]), Bare([98]), Bare([99])]) == [a, b, c];
    assert [a, b, c][1..] == [b, c] && [b, c][1..] == [c];
    OneKid(c);
    assert KidsText([b, c]) == TreeText(b) + [COMMA] + KidsText([c]) == [98] + [COMMA] + [99];
    assert KidsText([a, b, c]) == [97] + [COMMA] + ([98] + [COMMA] + [99]);
    assert Leafs([Bare([100])]) == [Leaf(Bare([100]))];
  }

  // ---------------------------------------------------------------------
  // One dimension
  // ---------------------------------------------------------------------

  function Leafs(items: seq<Item>): seq<Tree> {
    seq(|items|, i requires 0 <= i < |items| => Leaf(items[i]))
  }

  function Row(items: seq<Item>): Tree {
    Node(Leafs(items))
  }

  function ItemsMean(items: seq<Item>): seq<Elem> {
    seq(|items|, i requires 0 <= i < |items| => ItemMeans(items[i]))
  }

  predicate ItemsOk(items: seq<Item>) {
    forall i | 0 <= i < |items| :: ItemOk(items[i])
  }

  lemma {:induction false} LeafsRead(items: seq<Item>, height: nat)
    requires ItemsOk(items)
    ensures KidsOk(Leafs(items), height) && KidsLeaves(Leafs(items)) == ItemsMean(items)
  {
    if items == [] {
    } else {
      assert Leafs(items)[1..] == Leafs(items[1..]);
      LeafsRead(items[1..], height);
    }
  }

  lemma {:induction false} NoGroups(items: seq<Item>, level: nat)
    ensures LastAmong(Leafs(items), level) == None
  {
    if items == [] {
    } else {
      assert Leafs(items)[1..] == Leafs(items[1..]);
      NoGroups(items[1..], level);
    }
  }

  lemma RowReads(items: seq<Item>, height: nat)
    requires ItemsOk(items) && items != [] && height > 0
    ensures TreeOk(Row(items), height) && Spine(Row(items)) == 1 && Leaves(Row(items)) == ItemsMean(items)
    ensures LastCount(Row(items), 0) == Some(|items|)
  {
    LeafsRead(items, height - 1);
  }

  /** The literal of a list: its items in braces, separated by commas. */
  ghost predicate IsLiteral(src: Bytes, items: seq<Item>) {
    items != [] && ItemsOk(items) && src == TreeText(Row(items))
  }

  /** The elements of a literal of at most one dimension. */
  ghost function ReadLinear(src: Bytes): Option<seq<Elem>> {
    var r := ReadArray(src);
    if r.Some? && |r.value.0| <= 1 then Some(r.value.1) else None
  }

  lemma RowIsRead(src: Bytes, items: seq<Item>)
    requires IsLiteral(src, items)
    ensures ReadArray(src) == Some(([|items|], ItemsMean(items)))
  {
    RowReads(items, 1);
    ReadsArrayText(src, Row(items), [|items|], ItemsMean(items));
  }

  lemma ReadsLiteral(src: Bytes, items: seq<Item>)
    requires IsLiteral(src, items)
    ensures ReadLinear(src) == Some(ItemsMean(items))
  {
    RowIsRead(src, items);
  }

  lemma {:induction false} LeafsOf(kids: seq<Tree>) returns (items: seq<Item>)
    requires KidsOk(kids, 0)
    ensures kids == Leafs(items) && ItemsOk(items)
  {
    if kids == [] {
      items := [];
    } else {
      var more := LeafsOf(kids[1..]);
      items := [kids[0].item] + more;
    }
  }

  /** The one-dimensional texts are exactly the literals, with their meaning, and
      the nested empty braces. */
  lemma ReadsExactlyLiterals(src: Bytes, elems: seq<Elem>)
    ensures ReadLinear(src) == Some(elems) <==>
            || (exists items :: IsLiteral(src, items) && ItemsMean(items) == elems)
            || (elems == [] && exists k: nat :: IsEmptyLiteral(src, k))
  {
    if ReadLinear(src) == Some(elems) {
      var dims := ReadArray(src).value.0;
      ReadsExactlyArrays(src, dims, elems);
      if t :| IsArray(src, t, dims, elems) {
        var items := LeafsOf(t.kids);
        RowReads(items, 1);
        assert t == Row(items) && IsLiteral(src, items);
      }
    }
    if items :| IsLiteral(src, items) && ItemsMean(items) == elems {
      ReadsLiteral(src, items);
    }
    if elems == [] && exists k: nat :: IsEmptyLiteral(src, k) {
      var k: nat :| IsEmptyLiteral(src, k);
      ReadsEmpty(src, k);
    }
  }

  // ---------------------------------------------------------------------
  // The printer
  // ---------------------------------------------------------------------

  predicate Special(b: Byte) {
    b == QUOTE || b == BACKSLASH
  }

  function PieceFor(b: Byte): Piece {
    if Special(b) then Escaped(b) else Plain(b)
  }

  /** A string as a quoted item: only quotes and backslashes are escaped. */
  function ItemFor(v: Bytes): Item {
    Quoted(seq(|v|, i requires 0 <= i < |v| => PieceFor(v[i])))
  }

  function ItemsFor(list: seq<Bytes>): seq<Item> {
    seq(|list|, i requires 0 <= i < |list| => ItemFor(list[i]))
  }

  function Printed(list: seq<Bytes>): Bytes {
    if list == [] then [OPEN, CLOSE] else TreeText(Row(ItemsFor(list)))
  }

  function Strings(list: seq<Bytes>): seq<Elem> {
    seq(|list|, i requires 0 <= i < |list| => Some(list[i]))
  }

  lemma {:induction false} PiecesMeanAt(ps: seq<Piece>)
    ensures |PiecesMean(ps)| == |ps| && forall i | 0 <= i < |ps| :: PiecesMean(ps)[i] == ps[i].b
  {
    if ps == [] {
    } else {
      PiecesMeanAt(ps[1..]);
      assert forall i | 0 < i < |ps| :: PiecesMean(ps)[i] == PiecesMean(ps[1..])[i - 1];
    }
  }

  lemma ItemForMeans(v: Bytes)
    ensures ItemOk(ItemFor(v)) && ItemMeans(ItemFor(v)) == Some(v)
  {
    PiecesMeanAt(ItemFor(v).pieces);
    assert PiecesMean(ItemFor(v).pieces) == v;
  }

  lemma EmptyReads()
    ensures ReadLinear([OPEN, CLOSE]) == Some([])
  {
    hide ReadArray;
    assert [OPEN, CLOSE] == Repeat(OPEN, 1) + Repeat(CLOSE, 1);
    ReadsEmpty([OPEN, CLOSE], 1);
  }

  /** Every list of byte strings survives being printed and read back. */
  lemma RoundTrip(list: seq<Bytes>)
    ensures ReadLinear(Printed(list)) == Some(Strings(list))
  {
    if list == [] {
      EmptyReads();
      assert Strings(list) == [];
    } else {
      hide ReadLinear, PiecesMean;
      var items := ItemsFor(list);
      forall i | 0 <= i < |items|
        ensures ItemOk(items[i]) && ItemMeans(items[i]) == Some(list[i])
      {
        ItemForMeans(list[i]);
      }
      assert ItemsMean(items) == Strings(list);
      ReadsLiteral(Printed(list), items);
    }
  }

  /** Different lists print differently. */
  lemma PrintedIsInjective(a: seq<Bytes>, b: seq<Bytes>)
    requires Printed(a) == Printed(b)
    ensures a == b
  {
    RoundTrip(a);
    RoundTrip(b);
    StringsInjective(a, b);
  }

  lemma StringsInjective(a: seq<Bytes>, b: seq<Bytes>)
    requires Strings(a) == Strings(b)
    ensures a == b
  {
    assert |Strings(a)| == |Strings(b)|;
    forall i | 0 <= i < |a| ensures a[i] == b[i] { assert Strings(a)[i] == Strings(b)[i]; }
  }

  // ---------------------------------------------------------------------
  // Texts in numbers
  // ---------------------------------------------------------------------

  lemma OneItemRow(it: Item)
    ensures TreeText(Row([it])) == [123] + ItemText(it) + [125] && ItemsMean([it]) == [ItemMeans(it)]
  {
    hide ItemText, ItemMeans;
    assert Leafs([it]) == [Leaf(it)] && [it][1..] == [] && [Leaf(it)][1..] == [];
    assert KidsText([Leaf(it)]) == ItemText(it);
  }

  lemma TwoItemRow(a: Item, b: Item)
    ensures TreeText(Row([a, b])) == [123] + ItemText(a) + [44] + ItemText(b) + [125]
    ensures ItemsMean([a, b]) == [ItemMeans(a), ItemMeans(b)]
  {
    hide ItemText, ItemMeans;
    assert Leafs([a, b]) == [Leaf(a), Leaf(b)] && [Leaf(a), Leaf(b)][1..] == [Leaf(b)];
    assert [Leaf(b)][1..] == [] && [a, b][1..] == [b] && [b][1..] == [];
    assert KidsText([Leaf(b)]) == ItemText(b);
    assert KidsText([Leaf(a), Leaf(b)]) == ItemText(a) + [44] + ItemText(b);
  }

  /** An unquoted text between braces is one element: null when it is the four bytes of NULL, in
      capitals, and itself otherwise. */
  lemma BareReads(t: Bytes)
    requires t != [] && t[0] != 123 && t[0] != 34 && 44 !in t && 125 !in t
    ensures ReadArray([123] + t + [125]) == Some(([1], [if t == [78, 85, 76, 76] then None else Some(t)]))
  {
    hide ReadArray, TreeText, ItemsMean;
    OneItemRow(Bare(t));
    RowIsRead([123] + t + [125], [Bare(t)]);
  }

  /** {NULL}, {null} and {"a\"b",c}. */
  lemma TextsRead()
    ensures ReadArray([123, 78, 85, 76, 76, 125]) == Some(([1], [None]))
    ensures ReadArray([123, 110, 117, 108, 108, 125]) == Some(([1], [Some([110, 117, 108, 108])]))
    ensures ReadArray([123, 34, 97, 92, 34, 98, 34, 44, 99, 125]) == Some(([2], [Some([97, 34, 98]), Some([99])]))
  {
    hide ReadArray;
    BareReads([78, 85, 76, 76]);
    assert [123] + [78, 85, 76, 76] + [125] == [123, 78, 85, 76, 76, 125];
    BareReads([110, 117, 108, 108]);
    assert [123] + [110, 117, 108, 108] + [125] == [123, 110, 117, 108, 108, 125];
    var pieces := [Plain(97), Escaped(34), Plain(98)];
    QuotedPieces(pieces);
    TwoItemRow(Quoted(pieces), Bare([99]));
    assert [123] + [34, 97, 92, 34, 98, 34] + [44] + [99] + [125] == [123, 34, 97, 92, 34, 98, 34, 44, 99, 125];
    hide TreeText, ItemsMean;
    RowIsRead([123, 34, 97, 92, 34, 98, 34, 44, 99, 125], [Quoted(pieces), Bare([99])]);
  }

  lemma QuotedPieces(ps: seq<Piece>)
    requires ps == [Plain(97), Escaped(34), Plain(98)]
    ensures ItemText(Quoted(ps)) == [34, 97, 92, 34, 98, 34] && ItemMeans(Quoted(ps)) == Some([97, 34, 98])
    ensures ItemOk(Quoted(ps))
  {
    assert ps[1..] == [Escaped(34), Plain(98)] && ps[1..][1..] == [Plain(98)] && [Plain(98)][1..] == [];
    assert PiecesText([Plain(98)]) == [98];
    assert PiecesText(ps[1..]) == [92, 34, 98];
    assert PiecesText(ps) == [97, 92, 34, 98];
    assert PiecesMean([Plain(98)]) == [98];
    assert PiecesMean(ps[1..]) == [34, 98];
    assert PiecesMean(ps) == [97, 34, 98];
  }

  /** The list of the string a"b prints as {"a\"b"}. */
  lemma TextPrinted()
    ensures Printed([[97, 34, 98]]) == [123, 34, 97, 92, 34, 98, 34, 125]
  {
    var v: Bytes := [97, 34, 98];
    assert ItemFor(v).pieces == [Plain(97), Escaped(34), Plain(98)];
    QuotedPieces([Plain(97), Escaped(34), Plain(98)]);
    assert ItemsFor([v]) == [ItemFor(v)];
    OneItemRow(ItemFor(v));
  }
}
