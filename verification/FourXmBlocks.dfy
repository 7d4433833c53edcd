// Motion compensated frames of 4XM: how a prefix code splits each 8x8 block into leaves, and
// that the leaves cover every pixel once.
module FourXmBlocks {
  import opened FourXmMotion

  // ---- the tables ----

  // Which code table a block of 2^log2h rows and 2^log2w columns uses; 255 is none.
  function SizeIndex(log2h: int, log2w: int): int {
    if log2h == 0 then if log2w == 0 then 255 else if log2w == 1 then 3 else 1
    else if log2w == 0 then if log2h == 1 then 3 else 2
    else 0
  }

  // A code word and its length; length 0 means the symbol has none.
  datatype Word = Word(code: int, len: int)

  // Symbols 0 to 6 of a table.
  function Words(index: int): seq<Word> {
    if index == 0 then [Word(0, 1), Word(2, 2), Word(6, 3), Word(14, 4), Word(30, 5), Word(31, 5), Word(0, 0)]
    else if index == 1 then [Word(0, 1), Word(0, 0), Word(2, 2), Word(6, 3), Word(14, 4), Word(15, 4), Word(0, 0)]
    else if index == 2 then [Word(0, 1), Word(2, 2), Word(0, 0), Word(6, 3), Word(14, 4), Word(15, 4), Word(0, 0)]
    else [Word(0, 1), Word(0, 0), Word(0, 0), Word(2, 2), Word(6, 3), Word(14, 4), Word(15, 4)]
  }

  function PowerOf(n: int): int {
    if n <= 0 then 1 else if n == 1 then 2 else if n == 2 then 4 else if n == 3 then 8 else if n == 4 then 16 else 32
  }

  // Symbol s is what the next five bits begin with.
  predicate Matches(index: int, s: int, bits: int) {
    0 <= s < 7 && Words(index)[s].len > 0 && bits / PowerOf(5 - Words(index)[s].len) == Words(index)[s].code
  }

  // The codes are complete and no word begins another: whatever the bits, one symbol matches.
  lemma OneSymbolMatches(index: int, bits: int)
    requires 0 <= index < 4 && 0 <= bits < 32
    ensures Matches(index, SymbolOf(index, bits), bits)
    ensures forall s :: Matches(index, s, bits) ==> s == SymbolOf(index, bits)
  {
    if index == 0 { } else if index == 1 { } else if index == 2 { } else { }
  }

  // The symbol by the number of ones the bits begin with.
  function SymbolOf(index: int, bits: int): int {
    var ones := if bits < 16 then 0 else if bits < 24 then 1 else if bits < 28 then 2
                else if bits < 30 then 3 else if bits < 31 then 4 else 5;
    if index == 0 then ones
    else if index == 1 then if ones == 0 then 0 else if ones < 4 then ones + 1 else 5
    else if index == 2 then if ones < 2 then ones else if ones < 4 then ones + 1 else 5
    else if ones == 0 then 0 else if ones < 4 then ones + 2 else 6
  }

  // Kraft sums of the tables, in 32nds.
  function Share(w: Word): int { if w.len == 0 then 0 else PowerOf(5 - w.len) }

  lemma TablesAreComplete(index: int)
    requires 0 <= index < 4
    ensures var t := Words(index);
      Share(t[0]) + Share(t[1]) + Share(t[2]) + Share(t[3]) + Share(t[4]) + Share(t[5]) + Share(t[6]) == 32
  {
  }

  function BitAt(bits: seq<bool>, k: nat): int { if k < |bits| && bits[k] then 1 else 0 }

  // The next five bits; there are zeros after the end.
  function NextFive(bits: seq<bool>, pos: nat): (v: int)
    ensures 0 <= v < 32
  {
    16 * BitAt(bits, pos) + 8 * BitAt(bits, pos + 1) + 4 * BitAt(bits, pos + 2)
    + 2 * BitAt(bits, pos + 3) + BitAt(bits, pos + 4)
  }

  // A library call: a table search for the symbol whose word is next.
  method GetVlc(index: int, bits: seq<bool>, pos: nat) returns (s: int, len: nat)
    requires 0 <= index < 4
    ensures Matches(index, s, NextFive(bits, pos)) && len == Words(index)[s].len >= 1
    ensures s == SymbolOf(index, NextFive(bits, pos))
  {
    var v := NextFive(bits, pos);
    OneSymbolMatches(index, v);
    s := 0;
    while !(Words(index)[s].len > 0 && v / PowerOf(5 - Words(index)[s].len) == Words(index)[s].code)
      invariant 0 <= s <= SymbolOf(index, v) <= 6
      decreases 7 - s
    {
      s := s + 1;
    }
    len := Words(index)[s].len;
  }

  // ---- trees ----

  datatype Tree = Leaf(code: int) | Rows(top: Tree, bottom: Tree) | Columns(left: Tree, right: Tree)

  predicate SizeOk(log2h: int, log2w: int) { 0 <= log2h <= 3 && 0 <= log2w <= 3 && log2h + log2w > 0 }

  // Each size that a split can lead to has a table, and only whole sizes are split.
  lemma SplitSizes(log2h: int, log2w: int, bits: int)
    requires SizeOk(log2h, log2w) && 0 <= bits < 32
    ensures var s := SymbolOf(SizeIndex(log2h, log2w), bits);
      && 0 <= SizeIndex(log2h, log2w) < 4 && 0 <= s <= 6
      && (s == 1 ==> SizeOk(log2h - 1, log2w)) && (s == 2 ==> SizeOk(log2h, log2w - 1))
      && (s == 6 <==> log2h + log2w == 1 && bits >= 30)
  {
  }

  // What is read at a place for a block size: a symbol, and the place after it.
  datatype Choice = Choice(symbol: int, next: nat)
  type Chooser = (nat, int, int) -> Choice

  function ChoiceAt(bits: seq<bool>, pos: nat, log2h: int, log2w: int): Choice {
    var index := SizeIndex(log2h, log2w);
    var s := SymbolOf(index, NextFive(bits, pos));
    Choice(s, pos + if 0 <= s < 7 && Words(index)[s].len >= 0 then Words(index)[s].len else 0)
  }

  function Reads(bits: seq<bool>): Chooser {
    (pos: nat, log2h: int, log2w: int) => ChoiceAt(bits, pos, log2h, log2w)
  }

  // Names a place and a size at which a chooser is to be compared with the bits.
  predicate Asked(pos: nat, log2h: int, log2w: int) { true }

  // A chooser that chooses what the bits say.
  ghost predicate Agrees(choose: Chooser, bits: seq<bool>) {
    forall pos: nat, log2h: int, log2w: int {:trigger Asked(pos, log2h, log2w)} ::
      SizeOk(log2h, log2w) ==> choose(pos, log2h, log2w) == ChoiceAt(bits, pos, log2h, log2w)
  }

  // Splits lead to sizes that can be split or painted on; two single pixels only where there are two.
  ghost predicate ChooserOk(choose: Chooser) {
    forall pos: nat, log2h: int, log2w: int {:trigger choose(pos, log2h, log2w)} :: SizeOk(log2h, log2w) ==>
      var s := choose(pos, log2h, log2w).symbol;
      && 0 <= s <= 6 && (s == 1 ==> SizeOk(log2h - 1, log2w)) && (s == 2 ==> SizeOk(log2h, log2w - 1))
      && (s == 6 ==> log2h + log2w == 1)
  }

  lemma ReadsOk(bits: seq<bool>)
    ensures ChooserOk(Reads(bits)) && Agrees(Reads(bits), bits)
  {
    forall pos: nat, log2h: int, log2w: int | SizeOk(log2h, log2w)
      ensures var s := Reads(bits)(pos, log2h, log2w).symbol;
        && 0 <= s <= 6 && (s == 1 ==> SizeOk(log2h - 1, log2w)) && (s == 2 ==> SizeOk(log2h, log2w - 1))
        && (s == 6 ==> log2h + log2w == 1)
    {
      SplitSizes(log2h, log2w, NextFive(bits, pos));
    }
  }

  // How a block is split, and where the next block's bits begin.
  datatype Reading = Reading(tree: Tree, pos: nat)

  function ReadTree(choose: Chooser, pos: nat, log2h: int, log2w: int): Reading
    requires ChooserOk(choose) && SizeOk(log2h, log2w)
    decreases log2h + log2w
  {
    var c := choose(pos, log2h, log2w);
    if c.symbol == 1 then
      var a := ReadTree(choose, c.next, log2h - 1, log2w);
      var b := ReadTree(choose, a.pos, log2h - 1, log2w);
      Reading(Rows(a.tree, b.tree), b.pos)
    else if c.symbol == 2 then
      var a := ReadTree(choose, c.next, log2h, log2w - 1);
      var b := ReadTree(choose, a.pos, log2h, log2w - 1);
      Reading(Columns(a.tree, b.tree), b.pos)
    else Reading(Leaf(c.symbol), c.next)
  }

  // Trees over blocks of a size, whose leaves' codes their size allows.
  ghost predicate TreeOk(t: Tree, log2h: int, log2w: int)
    decreases t
  {
    SizeOk(log2h, log2w) && match t
    case Leaf(c) => c in {0, 3, 4, 5, 6} && (c == 6 ==> log2h + log2w == 1)
    case Rows(a, b) => TreeOk(a, log2h - 1, log2w) && TreeOk(b, log2h - 1, log2w)
    case Columns(a, b) => TreeOk(a, log2h, log2w - 1) && TreeOk(b, log2h, log2w - 1)
  }

  // Whatever the bits, no block is split down to a single pixel or to a size without a table.
  lemma {:induction false} ReadTreeOk(choose: Chooser, pos: nat, log2h: int, log2w: int)
    requires ChooserOk(choose) && SizeOk(log2h, log2w)
    ensures TreeOk(ReadTree(choose, pos, log2h, log2w).tree, log2h, log2w)
    decreases log2h + log2w
  {
    var c := choose(pos, log2h, log2w);
    if c.symbol == 1 {
      ReadTreeOk(choose, c.next, log2h - 1, log2w);
      ReadTreeOk(choose, ReadTree(choose, c.next, log2h - 1, log2w).pos, log2h - 1, log2w);
    } else if c.symbol == 2 {
      ReadTreeOk(choose, c.next, log2h, log2w - 1);
      ReadTreeOk(choose, ReadTree(choose, c.next, log2h, log2w - 1).pos, log2h, log2w - 1);
    }
  }

  // ---- leaves ----

  datatype Rect = Rect(y: int, x: int, log2h: int, log2w: int)

  predicate In(r: Rect, i: int, j: int) { r.y <= i < r.y + PowerOf(r.log2h) && r.x <= j < r.x + PowerOf(r.log2w) }

  function Upper(r: Rect): Rect { r.(log2h := r.log2h - 1) }

  function Lower(r: Rect): Rect { r.(y := r.y + PowerOf(r.log2h - 1), log2h := r.log2h - 1) }

  function LeftHalf(r: Rect): Rect { r.(log2w := r.log2w - 1) }

  function RightHalf(r: Rect): Rect { r.(x := r.x + PowerOf(r.log2w - 1), log2w := r.log2w - 1) }

  // The leaves of a block, in the order they are decoded.
  function Leaves(t: Tree, r: Rect): seq<Rect> {
    match t
    case Leaf(_) => [r]
    case Rows(a, b) => Leaves(a, Upper(r)) + Leaves(b, Lower(r))
    case Columns(a, b) => Leaves(a, LeftHalf(r)) + Leaves(b, RightHalf(r))
  }

  // How many of the rectangles a pixel is in.
  function Hits(rects: seq<Rect>, i: int, j: int): nat {
    if rects == [] then 0 else Hits(rects[..|rects| - 1], i, j) + if In(rects[|rects| - 1], i, j) then 1 else 0
  }

  lemma {:induction false} HitsConcat(a: seq<Rect>, b: seq<Rect>, i: int, j: int)
    ensures Hits(a + b, i, j) == Hits(a, i, j) + Hits(b, i, j)
  {
    if b == [] {
      assert a + b == a;
    } else {
      HitsConcat(a, b[..|b| - 1], i, j);
      assert (a + b)[..|a + b| - 1] == a + b[..|b| - 1];
    }
  }

  lemma HitsOne(r: Rect, i: int, j: int)
    ensures Hits([r], i, j) == if In(r, i, j) then 1 else 0
  {
    assert [r][..0] == [];
  }

  // Each pixel of a rectangle is in one of its halves.
  lemma HalvesPartition(r: Rect, i: int, j: int)
    ensures 1 <= r.log2h <= 5 ==> (In(r, i, j) <==> In(Upper(r), i, j) || In(Lower(r), i, j))
    ensures 1 <= r.log2h <= 5 ==> !(In(Upper(r), i, j) && In(Lower(r), i, j))
    ensures 1 <= r.log2w <= 5 ==> (In(r, i, j) <==> In(LeftHalf(r), i, j) || In(RightHalf(r), i, j))
    ensures 1 <= r.log2w <= 5 ==> !(In(LeftHalf(r), i, j) && In(RightHalf(r), i, j))
  {
  }

  // Every pixel of the block is in one leaf, and no pixel outside is in any.
  lemma {:induction false} LeavesPartition(t: Tree, r: Rect, i: int, j: int)
    requires TreeOk(t, r.log2h, r.log2w)
    ensures Hits(Leaves(t, r), i, j) == if In(r, i, j) then 1 else 0
    decreases t
  {
    HalvesPartition(r, i, j);
    match t
    case Leaf(_) =>
      HitsOne(r, i, j);
    case Rows(a, b) =>
      LeavesPartition(a, Upper(r), i, j);
      LeavesPartition(b, Lower(r), i, j);
      HitsConcat(Leaves(a, Upper(r)), Leaves(b, Lower(r)), i, j);
    case Columns(a, b) =>
      LeavesPartition(a, LeftHalf(r), i, j);
      LeavesPartition(b, RightHalf(r), i, j);
      HitsConcat(Leaves(a, LeftHalf(r)), Leaves(b, RightHalf(r)), i, j);
  }

  // ---- painting ----

  // Where operands and the pixels of the last picture come from.
  datatype Streams = Streams(bytes: nat -> int, words: nat -> Pixel, ref: Reference)

  // How far the two streams have been read.
  datatype Cursor = Cursor(bytes: nat, words: nat)

  function Plus(c: Cursor, bytes: nat, words: nat): Cursor { Cursor(c.bytes + bytes, c.words + words) }

  // Operands that a code takes.
  function CodeBytes(code: int): nat { if code == 0 || code == 4 then 1 else 0 }

  function CodeWords(code: int): nat { if code == 4 || code == 5 then 1 else if code == 6 then 2 else 0 }

  // The streams after the operands of a tree.
  function Past(t: Tree, c: Cursor): Cursor {
    match t
    case Leaf(code) => Plus(c, CodeBytes(code), CodeWords(code))
    case Rows(a, b) => Past(b, Past(a, c))
    case Columns(a, b) => Past(b, Past(a, c))
  }

  // A pixel of a compensated leaf. Where it is wider than a pixel, pixels are added in pairs.
  function Mixed(st: Streams, r: Rect, scale: int, motion: int, dc: Pixel, i: int, j: int): Pixel {
    Compensated(st.ref, r.x, r.log2w > 0, scale, motion, dc, i, j)
  }

  // A pixel of a leaf, its operands being next in the streams. Code 3 leaves it as it was.
  function LeafPixel(st: Streams, code: int, r: Rect, c: Cursor, i: int, j: int, v: int): int {
    if code == 0 then Mixed(st, r, 1, st.bytes(c.bytes), 0, i, j)
    else if code == 4 then Mixed(st, r, 1, st.bytes(c.bytes), st.words(c.words), i, j)
    else if code == 5 then Mixed(st, r, 0, 0, st.words(c.words), i, j)
    else if code == 6 then st.words(if i == r.y && j == r.x then c.words else c.words + 1)
    else v
  }

  // A pixel that was v after a block was decoded: nothing happens outside the block, and inside
  // the leaf that the pixel is in makes it, with operands after those of the leaves before.
  function Painted(st: Streams, t: Tree, r: Rect, c: Cursor, i: int, j: int, v: int): int {
    if !In(r, i, j) then v
    else match t
      case Leaf(code) => LeafPixel(st, code, r, c, i, j, v)
      case Rows(a, b) =>
        if In(Upper(r), i, j) then Painted(st, a, Upper(r), c, i, j, v)
        else Painted(st, b, Lower(r), Past(a, c), i, j, v)
      case Columns(a, b) =>
        if In(LeftHalf(r), i, j) then Painted(st, a, LeftHalf(r), c, i, j, v)
        else Painted(st, b, RightHalf(r), Past(a, c), i, j, v)
  }

  lemma OutsideUnchanged(st: Streams, t: Tree, r: Rect, c: Cursor, i: int, j: int, v: int)
    requires !In(r, i, j)
    ensures Painted(st, t, r, c, i, j, v) == v
  {
  }

  // Decoding the halves one after the other is decoding the whole.
  lemma RowsPaint(st: Streams, a: Tree, b: Tree, r: Rect, c: Cursor, i: int, j: int, v: int)
    requires 1 <= r.log2h <= 5
    ensures Painted(st, Rows(a, b), r, c, i, j, v)
         == Painted(st, b, Lower(r), Past(a, c), i, j, Painted(st, a, Upper(r), c, i, j, v))
  {
    HalvesPartition(r, i, j);
    var u := Painted(st, a, Upper(r), c, i, j, v);
    if !In(Upper(r), i, j) { OutsideUnchanged(st, a, Upper(r), c, i, j, v); }
    if !In(Lower(r), i, j) { OutsideUnchanged(st, b, Lower(r), Past(a, c), i, j, u); }
  }

  lemma ColumnsPaint(st: Streams, a: Tree, b: Tree, r: Rect, c: Cursor, i: int, j: int, v: int)
    requires 1 <= r.log2w <= 5
    ensures Painted(st, Columns(a, b), r, c, i, j, v)
         == Painted(st, b, RightHalf(r), Past(a, c), i, j, Painted(st, a, LeftHalf(r), c, i, j, v))
  {
    HalvesPartition(r, i, j);
    var u := Painted(st, a, LeftHalf(r), c, i, j, v);
    if !In(LeftHalf(r), i, j) { OutsideUnchanged(st, a, LeftHalf(r), c, i, j, v); }
    if !In(RightHalf(r), i, j) { OutsideUnchanged(st, b, RightHalf(r), Past(a, c), i, j, u); }
  }

  // What each code makes of a pixel. Only a block that adds looks at both streams and the last
  // picture, and only there can the first pixel of two disturb the second.
  lemma LeafMeans(st: Streams, code: int, r: Rect, c: Cursor, i: int, j: int, v: int)
    requires TreeOk(Leaf(code), r.log2h, r.log2w) && In(r, i, j)
    ensures var p := LeafPixel(st, code, r, c, i, j, v);
      var m := st.bytes(c.bytes);
      var carries := r.log2w > 0 && (j - r.x) % 2 == 1 && Moved(st.ref, m, i, j - 1) + st.words(c.words) >= 0x1_0000;
      && (code == 0 ==> p == Moved(st.ref, m, i, j))
      && (code == 3 ==> p == v)
      && (code == 4 ==> (p == (Moved(st.ref, m, i, j) + st.words(c.words)) % 0x1_0000 <==> !carries))
      && (code == 5 ==> p == st.words(c.words))
      && (code == 6 ==> p == st.words(c.words + (i - r.y) + (j - r.x)))
  {
    if code == 0 {
      CopiesPixel(st.ref, r.x, r.log2w > 0, st.bytes(c.bytes), i, j);
    } else if code == 4 {
      AddsPixelIff(st.ref, r.x, r.log2w > 0, st.bytes(c.bytes), st.words(c.words), i, j);
    } else if code == 5 {
      FillsPixel(st.ref, r.x, r.log2w > 0, 0, st.words(c.words), i, j);
    }
  }

  // ---- operands ----

  // Two frames with the same words, and bytes that pick vectors of the same length, between two cursors.
  ghost predicate SameOperands(a: Streams, b: Streams, from: Cursor, to: Cursor) {
    && (forall k: nat {:trigger a.bytes(k)} {:trigger b.bytes(k)} :: from.bytes <= k < to.bytes ==>
            Shift(a.ref, a.bytes(k)) == Shift(b.ref, b.bytes(k)))
    && (forall k: nat {:trigger a.words(k)} {:trigger b.words(k)} :: from.words <= k < to.words ==>
            a.words(k) == b.words(k))
  }

  // The same frame after another picture.
  function Over(st: Streams, memory: int -> Pixel): Streams { st.(ref := st.ref.(memory := memory)) }

  // Whatever the last picture, they make the same of every pixel.
  ghost predicate SamePictures(a: Streams, b: Streams, t: Tree, r: Rect, c: Cursor) {
    forall memory: int -> Pixel, i, j, v {:trigger Painted(Over(a, memory), t, r, c, i, j, v)}
        {:trigger Painted(Over(b, memory), t, r, c, i, j, v)} :: In(r, i, j) ==>
      Painted(Over(a, memory), t, r, c, i, j, v) == Painted(Over(b, memory), t, r, c, i, j, v)
  }

  lemma {:induction false} PastGrows(t: Tree, c: Cursor)
    ensures c.bytes <= Past(t, c).bytes && c.words <= Past(t, c).words
  {
    match t
    case Leaf(_) =>
    case Rows(a, b) =>
      PastGrows(a, c);
      PastGrows(b, Past(a, c));
    case Columns(a, b) =>
      PastGrows(a, c);
      PastGrows(b, Past(a, c));
  }

  // A block shows just what its halves do.
  lemma HalvesShow(a: Streams, b: Streams, t: Tree, t0: Tree, t1: Tree, r0: Rect, r1: Rect, r: Rect, c: Cursor)
    requires (t == Rows(t0, t1) && r0 == Upper(r) && r1 == Lower(r) && 1 <= r.log2h <= 3)
      || (t == Columns(t0, t1) && r0 == LeftHalf(r) && r1 == RightHalf(r) && 1 <= r.log2w <= 3)
    ensures SamePictures(a, b, t, r, c) <==> SamePictures(a, b, t0, r0, c) && SamePictures(a, b, t1, r1, Past(t0, c))
  {
    forall i, j, st: Streams, v
      ensures In(r0, i, j) ==> In(r, i, j) && Painted(st, t, r, c, i, j, v) == Painted(st, t0, r0, c, i, j, v)
      ensures In(r1, i, j) ==> In(r, i, j) && Painted(st, t, r, c, i, j, v) == Painted(st, t1, r1, Past(t0, c), i, j, v)
      ensures In(r, i, j) ==> In(r0, i, j) || In(r1, i, j)
    {
      HalvesPartition(r, i, j);
    }
  }

  // For one leaf: over a picture of zeros its words show, and over one with a single one its vector.
  lemma LeafOperands(a: Streams, b: Streams, code: int, r: Rect, c: Cursor)
    requires TreeOk(Leaf(code), r.log2h, r.log2w) && a.ref.stride == b.ref.stride
    ensures SamePictures(a, b, Leaf(code), r, c) <==> SameOperands(a, b, c, Past(Leaf(code), c))
  {
    if SameOperands(a, b, c, Past(Leaf(code), c)) {
      forall memory: int -> Pixel, i, j, v | In(r, i, j)
        ensures Painted(Over(a, memory), Leaf(code), r, c, i, j, v)
             == Painted(Over(b, memory), Leaf(code), r, c, i, j, v)
      {
        SamePixel(a, b, memory, code, r, c, i, j, v);
      }
    }
    if SamePictures(a, b, Leaf(code), r, c) {
      WordsShow(a, b, code, r, c);
      if code == 0 || code == 4 { VectorShows(a, b, code, r, c); }
    }
  }

  lemma SamePixel(a: Streams, b: Streams, memory: int -> Pixel, code: int, r: Rect, c: Cursor, i: int, j: int, v: int)
    requires SameOperands(a, b, c, Past(Leaf(code), c)) && a.ref.stride == b.ref.stride && In(r, i, j)
    ensures LeafPixel(Over(a, memory), code, r, c, i, j, v) == LeafPixel(Over(b, memory), code, r, c, i, j, v)
  {
    var m, n := a.bytes(c.bytes), b.bytes(c.bytes);
    var x, y := Over(a, memory).ref, Over(b, memory).ref;
    ShiftMoves(x, m, i, j);
    ShiftMoves(y, n, i, j);
    ShiftMoves(x, m, i, j - 1);
    ShiftMoves(y, n, i, j - 1);
  }

  lemma WordsShow(a: Streams, b: Streams, code: int, r: Rect, c: Cursor)
    requires TreeOk(Leaf(code), r.log2h, r.log2w) && SamePictures(a, b, Leaf(code), r, c)
    ensures forall k: nat {:trigger a.words(k)} {:trigger b.words(k)} ::
      c.words <= k < c.words + CodeWords(code) ==> a.words(k) == b.words(k)
  {
    var dark: int -> Pixel := _ => 0;
    ShownIn(a, b, dark, Leaf(code), r, c, r.y, r.x);
    if code == 6 {
      ShownIn(a, b, dark, Leaf(code), r, c, r.y + r.log2h, r.x + r.log2w);
    }
  }

  lemma ShownIn(a: Streams, b: Streams, memory: int -> Pixel, t: Tree, r: Rect, c: Cursor, i: int, j: int)
    requires SamePictures(a, b, t, r, c) && In(r, i, j)
    ensures Painted(Over(a, memory), t, r, c, i, j, 0) == Painted(Over(b, memory), t, r, c, i, j, 0)
  {
  }

  lemma VectorShows(a: Streams, b: Streams, code: int, r: Rect, c: Cursor)
    requires TreeOk(Leaf(code), r.log2h, r.log2w) && SamePictures(a, b, Leaf(code), r, c)
    requires code == 0 || (code == 4 && a.words(c.words) == b.words(c.words))
    requires a.ref.stride == b.ref.stride
    ensures Shift(a.ref, a.bytes(c.bytes)) == Shift(b.ref, b.bytes(c.bytes))
  {
    var target := Address(a.ref, r.y, r.x) + Shift(a.ref, a.bytes(c.bytes));
    var spot: int -> Pixel := k => if k == target then 1 else 0;
    ShownIn(a, b, spot, Leaf(code), r, c, r.y, r.x);
    ShiftMoves(Over(a, spot).ref, a.bytes(c.bytes), r.y, r.x);
    ShiftMoves(Over(b, spot).ref, b.bytes(c.bytes), r.y, r.x);
  }

  // A block shows its operands, all of them and no others.
  lemma {:induction false} OperandsIff(a: Streams, b: Streams, t: Tree, r: Rect, c: Cursor)
    requires TreeOk(t, r.log2h, r.log2w) && a.ref.stride == b.ref.stride
    ensures SamePictures(a, b, t, r, c) <==> SameOperands(a, b, c, Past(t, c))
    decreases t
  {
    match t
    case Leaf(code) =>
      LeafOperands(a, b, code, r, c);
    case Rows(top, bottom) =>
      OperandsIff(a, b, top, Upper(r), c);
      OperandsIff(a, b, bottom, Lower(r), Past(top, c));
      PastGrows(top, c);
      PastGrows(bottom, Past(top, c));
      HalvesShow(a, b, t, top, bottom, Upper(r), Lower(r), r, c);
    case Columns(left, right) =>
      OperandsIff(a, b, left, LeftHalf(r), c);
      OperandsIff(a, b, right, RightHalf(r), Past(left, c));
      PastGrows(left, c);
      PastGrows(right, Past(left, c));
      HalvesShow(a, b, t, left, right, LeftHalf(r), RightHalf(r), r, c);
  }

  ghost predicate Inside(r: Rect, rows: nat, columns: nat) {
    0 <= r.y && 0 <= r.x && r.y + PowerOf(r.log2h) <= rows && r.x + PowerOf(r.log2w) <= columns
  }

  // ---- the decoder ----

  class Context {
    // The frame's bits, what they say at each place, and the operands.
    const bits: seq<bool>
    ghost const choose: Chooser
    const st: Streams
    var pos: nat
    var bytestream: nat
    var wordstream: nat

    constructor (bits: seq<bool>, st: Streams)
      ensures Ready() && choose == Reads(bits) && this.bits == bits && this.st == st
      ensures pos == bytestream == wordstream == 0
    {
      this.bits, choose, this.st := bits, Reads(bits), st;
      pos, bytestream, wordstream := 0, 0, 0;
      ReadsOk(bits);
    }

    ghost predicate Ready() { ChooserOk(choose) && Agrees(choose, bits) }

    function At(): Cursor
      reads this
    {
      Cursor(bytestream, wordstream)
    }

    method NextByte() returns (v: int)
      modifies this`bytestream
      ensures v == st.bytes(old(bytestream)) && bytestream == old(bytestream) + 1
    {
      v := st.bytes(bytestream);
      bytestream := bytestream + 1;
    }

    method NextWord() returns (v: Pixel)
      modifies this`wordstream
      ensures v == st.words(old(wordstream)) && wordstream == old(wordstream) + 1
    {
      v := st.words(wordstream);
      wordstream := wordstream + 1;
    }

    // mcdc, for a rectangle: pixel by pixel where it is one wide, otherwise a pair at a time.
    method Compensate(dst: array2<int>, r: Rect, scale: int, motion: int, dc: Pixel)
      requires 0 <= r.log2w <= 3 && Inside(r, dst.Length0, dst.Length1) && (scale == 0 || scale == 1)
      modifies dst
      ensures forall i, j :: 0 <= i < dst.Length0 && 0 <= j < dst.Length1 ==>
        dst[i, j] == if In(r, i, j) then Mixed(st, r, scale, motion, dc, i, j) else old(dst[i, j])
    {
      var h := PowerOf(r.log2h);
      for k := 0 to h
        invariant forall i, j :: 0 <= i < dst.Length0 && 0 <= j < dst.Length1 ==>
          dst[i, j] == if In(r, i, j) && i < r.y + k then Mixed(st, r, scale, motion, dc, i, j) else old(dst[i, j])
      {
        if r.log2w == 0 {
          dst[r.y + k, r.x] := OnePixel(scale, r.y + k, r.x, motion, dc);
        } else {
          CompensateRow(dst, r, r.y + k, scale, motion, dc);
        }
      }
    }

    method CompensateRow(dst: array2<int>, r: Rect, y: nat, scale: int, motion: int, dc: Pixel)
      requires 1 <= r.log2w <= 3 && r.x >= 0 && r.x + PowerOf(r.log2w) <= dst.Length1 && y < dst.Length0
      requires scale == 0 || scale == 1
      modifies dst
      ensures forall i, j :: 0 <= i < dst.Length0 && 0 <= j < dst.Length1 ==>
        dst[i, j] == if i == y && r.x <= j < r.x + PowerOf(r.log2w) then Mixed(st, r, scale, motion, dc, i, j)
                     else old(dst[i, j])
    {
      for l := 0 to PowerOf(r.log2w - 1)
        invariant forall i, j :: 0 <= i < dst.Length0 && 0 <= j < dst.Length1 ==>
          dst[i, j] == if i == y && r.x <= j < r.x + 2 * l then Mixed(st, r, scale, motion, dc, i, j)
                       else old(dst[i, j])
      {
        var a, b := TwoPixels(r, scale, y, r.x + 2 * l, motion, dc);
        dst[y, r.x + 2 * l], dst[y, r.x + 2 * l + 1] := a, b;
      }
    }

    method OnePixel(scale: int, i: int, j: int, motion: int, dc: Pixel) returns (first: Pixel)
      requires scale == 0 || scale == 1
      ensures first == Compensated(st.ref, j, false, scale, motion, dc, i, j)
    {
      var src := Address(st.ref, i, j) + Shift(st.ref, motion);
      ShiftMoves(st.ref, motion, i, j);
      first := AddOne(scale, st.ref.memory(src), dc);
    }

    method TwoPixels(r: Rect, scale: int, i: int, j: int, motion: int, dc: Pixel) returns (first: Pixel, second: Pixel)
      requires (j - r.x) % 2 == 0 && r.log2w > 0 && (scale == 0 || scale == 1)
      ensures first == Mixed(st, r, scale, motion, dc, i, j) && second == Mixed(st, r, scale, motion, dc, i, j + 1)
    {
      var src := Address(st.ref, i, j) + Shift(st.ref, motion);
      ShiftMoves(st.ref, motion, i, j);
      ShiftMoves(st.ref, motion, i, j + 1);
      first, second := AddTwo(scale, st.ref.memory(src), st.ref.memory(src + 1), dc);
    }

    // A block that is not split: its rectangle is written from its operands, which are used up.
    method PaintLeaf(dst: array2<int>, code: int, r: Rect)
      requires code in {0, 3, 4, 5, 6} && (code == 6 ==> r.log2h + r.log2w == 1) && SizeOk(r.log2h, r.log2w)
      requires Inside(r, dst.Length0, dst.Length1)
      modifies this`bytestream, this`wordstream, dst
      ensures At() == Past(Leaf(code), old(At()))
      ensures forall i, j :: 0 <= i < dst.Length0 && 0 <= j < dst.Length1 ==>
        dst[i, j] == Painted(st, Leaf(code), r, old(At()), i, j, old(dst[i, j]))
    {
      if code == 0 {
        var motion := NextByte();
        Compensate(dst, r, 1, motion, 0);
      } else if code == 4 {
        var motion := NextByte();
        var dc := NextWord();
        Compensate(dst, r, 1, motion, dc);
      } else if code == 5 {
        var dc := NextWord();
        Compensate(dst, r, 0, 0, dc);
      } else if code == 6 {
        var first := NextWord();
        var second := NextWord();
        dst[r.y, r.x] := first;
        if r.log2w != 0 {
          dst[r.y, r.x + 1] := second;
        } else {
          dst[r.y + 1, r.x] := second;
        }
      }
    }

    // get_vlc2 with the table for the block's size.
    method NextCode(log2h: int, log2w: int) returns (code: int)
      requires Ready() && SizeOk(log2h, log2w)
      modifies this`pos
      ensures Choice(code, pos) == choose(old(pos), log2h, log2w)
    {
      assert Asked(pos, log2h, log2w);
      SplitSizes(log2h, log2w, NextFive(bits, pos));
      var len;
      code, len := GetVlc(SizeIndex(log2h, log2w), bits, pos);
      pos := pos + len;
    }

    // decode_p_block
    method DecodePBlock(dst: array2<int>, r: Rect)
      requires SizeOk(r.log2h, r.log2w) && Inside(r, dst.Length0, dst.Length1) && Ready()
      modifies this`pos, this`bytestream, this`wordstream, dst
      ensures var read := ReadTree(choose, old(pos), r.log2h, r.log2w);
        && pos == read.pos && At() == Past(read.tree, old(At()))
        && forall i, j :: 0 <= i < dst.Length0 && 0 <= j < dst.Length1 ==>
             dst[i, j] == Painted(st, read.tree, r, old(At()), i, j, old(dst[i, j]))
      decreases r.log2h + r.log2w, 1
    {
      ghost var choice := choose(pos, r.log2h, r.log2w);
      var code := NextCode(r.log2h, r.log2w);
      if code == 1 {
        DecodeRows(dst, r);
      } else if code == 2 {
        DecodeColumns(dst, r);
      } else {
        PaintLeaf(dst, code, r);
      }
    }

    method DecodeRows(dst: array2<int>, r: Rect)
      requires SizeOk(r.log2h - 1, r.log2w) && r.log2h <= 3 && Inside(r, dst.Length0, dst.Length1) && Ready()
      modifies this`pos, this`bytestream, this`wordstream, dst
      ensures var a := ReadTree(choose, old(pos), r.log2h - 1, r.log2w);
        var b := ReadTree(choose, a.pos, r.log2h - 1, r.log2w);
        && pos == b.pos && At() == Past(Rows(a.tree, b.tree), old(At()))
        && forall i, j :: 0 <= i < dst.Length0 && 0 <= j < dst.Length1 ==>
             dst[i, j] == Painted(st, Rows(a.tree, b.tree), r, old(At()), i, j, old(dst[i, j]))
      decreases r.log2h + r.log2w, 0
    {
      ghost var a := ReadTree(choose, pos, r.log2h - 1, r.log2w);
      ghost var b := ReadTree(choose, a.pos, r.log2h - 1, r.log2w);
      DecodePBlock(dst, Upper(r));
      DecodePBlock(dst, Lower(r));
      forall i, j | 0 <= i < dst.Length0 && 0 <= j < dst.Length1
        ensures dst[i, j] == Painted(st, Rows(a.tree, b.tree), r, old(At()), i, j, old(dst[i, j]))
      {
        RowsPaint(st, a.tree, b.tree, r, old(At()), i, j, old(dst[i, j]));
      }
    }

    method DecodeColumns(dst: array2<int>, r: Rect)
      requires SizeOk(r.log2h, r.log2w - 1) && r.log2w <= 3 && Inside(r, dst.Length0, dst.Length1) && Ready()
      modifies this`pos, this`bytestream, this`wordstream, dst
      ensures var a := ReadTree(choose, old(pos), r.log2h, r.log2w - 1);
        var b := ReadTree(choose, a.pos, r.log2h, r.log2w - 1);
        && pos == b.pos && At() == Past(Columns(a.tree, b.tree), old(At()))
        && forall i, j :: 0 <= i < dst.Length0 && 0 <= j < dst.Length1 ==>
             dst[i, j] == Painted(st, Columns(a.tree, b.tree), r, old(At()), i, j, old(dst[i, j]))
      decreases r.log2h + r.log2w, 0
    {
      ghost var a := ReadTree(choose, pos, r.log2h, r.log2w - 1);
      ghost var b := ReadTree(choose, a.pos, r.log2h, r.log2w - 1);
      DecodePBlock(dst, LeftHalf(r));
      DecodePBlock(dst, RightHalf(r));
      forall i, j | 0 <= i < dst.Length0 && 0 <= j < dst.Length1
        ensures dst[i, j] == Painted(st, Columns(a.tree, b.tree), r, old(At()), i, j, old(dst[i, j]))
      {
        ColumnsPaint(st, a.tree, b.tree, r, old(At()), i, j, old(dst[i, j]));
      }
    }

    // One block of the frame, after those before it.
    method DecodeNext(dst: array2<int>, r: Rect, ghost blocks: seq<Block>, ghost was: seq<seq<int>>)
        returns (ghost b: Block)
      requires Ready() && r.log2h == r.log2w == 3 && Inside(r, dst.Length0, dst.Length1)
      requires Shows(st, dst, was, blocks)
      modifies this`pos, this`bytestream, this`wordstream, dst
      ensures b.r == r && b.from == old(At()) && TreeOk(b.t, 3, 3) && At() == Past(b.t, b.from)
      ensures Shows(st, dst, was, blocks + [b])
    {
      b := Block(ReadTree(choose, pos, 3, 3).tree, r, At());
      ReadTreeOk(choose, pos, 3, 3);
      DecodePBlock(dst, r);
      forall i, j | 0 <= i < dst.Length0 && 0 <= j < dst.Length1
        ensures dst[i, j] == After(st, blocks + [b], i, j, was[i][j])
      {
        AfterOneMore(st, blocks, b, i, j, was[i][j]);
      }
    }

    // The loops of decode_p_frame: all blocks that a picture of this size has, the last ones
    // perhaps beyond its edge. Each pixel is in one of them, and that one makes it, from operands
    // next to those of the block before.
    method DecodePFrame(dst: array2<int>, width: nat, height: nat) returns (ghost blocks: seq<Block>)
      requires Ready() && 8 * ((height + 7) / 8) <= dst.Length0 && 8 * ((width + 7) / 8) <= dst.Length1
      modifies this`pos, this`bytestream, this`wordstream, dst
      ensures Shows(st, dst, old(Snapshot(dst)), blocks) && Consecutive(blocks, old(At()), At())
      ensures forall i, j {:trigger Hits(Rects(blocks), i, j)} ::
        Hits(Rects(blocks), i, j) == if 0 <= i < 8 * ((height + 7) / 8) && 0 <= j < 8 * ((width + 7) / 8) then 1 else 0
    {
      blocks := [];
      ghost var was, start := Snapshot(dst), At();
      var y := 0;
      ghost var columns := (width + 7) / 8;
      while y < height
        invariant 0 <= y && y % 8 == 0 && y <= 8 * ((height + 7) / 8)
        invariant Shows(st, dst, was, blocks) && Consecutive(blocks, start, At()) && Covers(blocks, y, 0, 8 * columns)
        decreases height - y
      {
        var x := 0;
        while x < width
          invariant 0 <= x && x % 8 == 0 && x <= 8 * columns
          invariant Shows(st, dst, was, blocks) && Consecutive(blocks, start, At()) && Covers(blocks, y, x, 8 * columns)
          decreases width - x
        {
          ghost var b := DecodeNext(dst, Rect(y, x, 3, 3), blocks, was);
          CoversOneMore(blocks, b, y, x, 8 * columns);
          ConsecutiveMore(blocks, b, start);
          blocks := blocks + [b];
          x := x + 8;
        }
        CoversRow(blocks, y, 8 * columns);
        y := y + 8;
      }
    }
  }

  // A block of a frame: how it was split, where it is, and its operands' place.
  datatype Block = Block(t: Tree, r: Rect, from: Cursor)

  function Rects(blocks: seq<Block>): (s: seq<Rect>)
    ensures |s| == |blocks| && forall k :: 0 <= k < |blocks| ==> s[k] == blocks[k].r
  {
    seq(|blocks|, k requires 0 <= k < |blocks| => blocks[k].r)
  }

  // A pixel that was v, after these blocks.
  function After(st: Streams, blocks: seq<Block>, i: int, j: int, v: int): int {
    if blocks == [] then v
    else
      var b := blocks[|blocks| - 1];
      Painted(st, b.t, b.r, b.from, i, j, After(st, blocks[..|blocks| - 1], i, j, v))
  }

  lemma AfterOneMore(st: Streams, blocks: seq<Block>, b: Block, i: int, j: int, v: int)
    ensures After(st, blocks + [b], i, j, v) == Painted(st, b.t, b.r, b.from, i, j, After(st, blocks, i, j, v))
  {
    assert (blocks + [b])[..|blocks|] == blocks;
  }

  ghost predicate Shows(st: Streams, dst: array2<int>, was: seq<seq<int>>, blocks: seq<Block>)
    reads dst
  {
    && |was| == dst.Length0 && (forall i :: 0 <= i < |was| ==> |was[i]| == dst.Length1)
    && forall i, j :: 0 <= i < dst.Length0 && 0 <= j < dst.Length1 ==> dst[i, j] == After(st, blocks, i, j, was[i][j])
  }

  // The streams after the first k blocks.
  function Reached(blocks: seq<Block>, start: Cursor, k: nat): Cursor
    requires k <= |blocks|
  {
    if k == 0 then start else Past(blocks[k - 1].t, blocks[k - 1].from)
  }

  // Blocks whose trees are sound, each reading its operands where the one before ended.
  ghost predicate Consecutive(blocks: seq<Block>, start: Cursor, end: Cursor) {
    && (forall k :: 0 <= k < |blocks| ==> blocks[k].r.log2h == blocks[k].r.log2w == 3 && TreeOk(blocks[k].t, 3, 3))
    && (forall k {:trigger Reached(blocks, start, k)} :: 0 <= k < |blocks| ==>
            blocks[k].from == Reached(blocks, start, k))
    && end == Reached(blocks, start, |blocks|)
  }

  lemma ConsecutiveMore(blocks: seq<Block>, b: Block, start: Cursor)
    requires Consecutive(blocks, start, b.from) && b.r.log2h == b.r.log2w == 3 && TreeOk(b.t, 3, 3)
    ensures Consecutive(blocks + [b], start, Past(b.t, b.from))
  {
    var more := blocks + [b];
    forall k | 0 <= k < |more|
      ensures more[k].from == Reached(more, start, k)
    {
      assert Reached(more, start, k) == Reached(blocks, start, k);
    }
  }

  // The pixels above y, and of the eight rows from y on those left of x, are in one block each.
  ghost predicate Covers(blocks: seq<Block>, y: int, x: int, edge: int) {
    forall i, j {:trigger Hits(Rects(blocks), i, j)} ::
      Hits(Rects(blocks), i, j) == if (0 <= i < y && 0 <= j < edge) || (y <= i < y + 8 && 0 <= j < x) then 1 else 0
  }

  lemma CoversOneMore(blocks: seq<Block>, b: Block, y: int, x: int, edge: int)
    requires Covers(blocks, y, x, edge) && b.r == Rect(y, x, 3, 3) && x >= 0
    ensures Covers(blocks + [b], y, x + 8, edge)
  {
    forall i, j
      ensures Hits(Rects(blocks + [b]), i, j)
              == if (0 <= i < y && 0 <= j < edge) || (y <= i < y + 8 && 0 <= j < x + 8) then 1 else 0
    {
      assert Rects(blocks + [b]) == Rects(blocks) + [b.r];
      HitsConcat(Rects(blocks), [b.r], i, j);
      HitsOne(b.r, i, j);
      assert Hits(Rects(blocks), i, j)
             == if (0 <= i < y && 0 <= j < edge) || (y <= i < y + 8 && 0 <= j < x) then 1 else 0;
    }
  }

  lemma CoversRow(blocks: seq<Block>, y: int, edge: int)
    requires Covers(blocks, y, edge, edge) && y >= 0
    ensures Covers(blocks, y + 8, 0, edge)
  {
  }

  ghost function Snapshot(dst: array2<int>): (s: seq<seq<int>>)
    reads dst
    ensures |s| == dst.Length0 && forall i :: 0 <= i < |s| ==> |s[i]| == dst.Length1
    ensures forall i, j :: 0 <= i < dst.Length0 && 0 <= j < dst.Length1 ==> s[i][j] == dst[i, j]
  {
    seq(dst.Length0, i requires 0 <= i < dst.Length0 reads dst =>
      seq(dst.Length1, j requires 0 <= j < dst.Length1 reads dst => dst[i, j]))
  }

  // ---- the leaves of a frame ----

  function AllLeaves(blocks: seq<Block>): seq<Rect> {
    if blocks == [] then []
    else AllLeaves(blocks[..|blocks| - 1]) + Leaves(blocks[|blocks| - 1].t, blocks[|blocks| - 1].r)
  }

  // A pixel is in as many leaves of a frame as in blocks: one, if the blocks are the frame's.
  lemma {:induction false} FramePartition(blocks: seq<Block>, i: int, j: int)
    requires forall k :: 0 <= k < |blocks| ==> blocks[k].r.log2h == blocks[k].r.log2w == 3 && TreeOk(blocks[k].t, 3, 3)
    ensures Hits(AllLeaves(blocks), i, j) == Hits(Rects(blocks), i, j)
  {
    if blocks != [] {
      var n := |blocks| - 1;
      FramePartition(blocks[..n], i, j);
      LeavesPartition(blocks[n].t, blocks[n].r, i, j);
      HitsConcat(AllLeaves(blocks[..n]), Leaves(blocks[n].t, blocks[n].r), i, j);
      assert Rects(blocks)[..n] == Rects(blocks[..n]);
    }
  }

  // The one block that a pixel is in makes it.
  lemma {:induction false} MadeByItsBlock(st: Streams, blocks: seq<Block>, k: nat, i: int, j: int, v: int)
    requires k < |blocks| && In(blocks[k].r, i, j) && Hits(Rects(blocks), i, j) == 1
    ensures After(st, blocks, i, j, v) == Painted(st, blocks[k].t, blocks[k].r, blocks[k].from, i, j, v)
  {
    var n := |blocks| - 1;
    assert Rects(blocks)[..n] == Rects(blocks[..n]);
    if k < n {
      HasHit(Rects(blocks[..n]), k, i, j);
      MadeByItsBlock(st, blocks[..n], k, i, j, v);
      OutsideUnchanged(st, blocks[n].t, blocks[n].r, blocks[n].from, i, j, After(st, blocks[..n], i, j, v));
    } else {
      NoHitNoChange(st, blocks[..n], i, j, v);
    }
  }

  lemma {:induction false} HasHit(rects: seq<Rect>, k: nat, i: int, j: int)
    requires k < |rects| && In(rects[k], i, j)
    ensures Hits(rects, i, j) >= 1
  {
    if k < |rects| - 1 {
      HasHit(rects[..|rects| - 1], k, i, j);
    }
  }

  lemma {:induction false} NoHitNoChange(st: Streams, blocks: seq<Block>, i: int, j: int, v: int)
    requires Hits(Rects(blocks), i, j) == 0
    ensures After(st, blocks, i, j, v) == v
  {
    if blocks != [] {
      var n := |blocks| - 1;
      assert Rects(blocks)[..n] == Rects(blocks[..n]);
      NoHitNoChange(st, blocks[..n], i, j, v);
    }
  }
}
