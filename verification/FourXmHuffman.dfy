// The Huffman tree that the 4XM decoder rebuilds from a table of symbol frequencies,
// and the prefix code it reads off that tree.
module FourXmHuffman {
  import opened Sums

  const SYMBOLS: nat := 257
  const NODES: nat := 512
  const TOP: int := 256 * 256

  // Nodes are numbered; 0..256 are the symbols and each merge appends one node.
  // w is the weight a node had when it was created, up its parent (-1 for none),
  // flag its side under that parent, left and right the children of an inner node.
  datatype Forest = Forest(w: seq<int>, up: seq<int>, flag: seq<int>, left: seq<int>, right: seq<int>)

  ghost predicate IsFrequencyTable(freq: seq<int>) {
    && |freq| == SYMBOLS
    && freq[256] == 1
    && forall i :: 0 <= i < 256 ==> 0 <= freq[i] <= 255
  }

  function Leaves(freq: seq<int>): Forest
    requires |freq| == SYMBOLS
  {
    Forest(freq, seq(SYMBOLS, i => -1), seq(SYMBOLS, i => 0), seq(SYMBOLS, i => -1), seq(SYMBOLS, i => -1))
  }

  ghost predicate Hangs(t: Forest, i: int)
    requires 0 <= i < |t.w| == |t.up| == |t.flag| == |t.left| == |t.right|
  {
    var k := t.up[i];
    k == -1 ||
    (SYMBOLS <= k < |t.w| && i < k && t.w[i] > 0 &&
     if t.flag[i] == 0 then t.left[k] == i else t.flag[i] == 1 && t.right[k] == i)
  }

  ghost predicate Joins(t: Forest, k: int)
    requires 0 <= k < |t.w| == |t.up| == |t.flag| == |t.left| == |t.right|
  {
    var a, b := t.left[k], t.right[k];
    0 <= a < k && 0 <= b < k && a != b && t.w[a] > 0 && t.w[b] > 0 &&
    t.up[a] == k && t.up[b] == k && t.flag[a] == 0 && t.flag[b] == 1 && t.w[k] == t.w[a] + t.w[b]
  }

  ghost predicate Shape(t: Forest) {
    && SYMBOLS <= |t.w| == |t.up| == |t.flag| == |t.left| == |t.right|
    && (forall i :: 0 <= i < |t.w| ==> t.w[i] >= 0)
    && (forall i :: 0 <= i < |t.w| ==> Hangs(t, i))
    && (forall k :: SYMBOLS <= k < |t.w| ==> Joins(t, k))
  }

  predicate Root(t: Forest, i: int)
    requires |t.w| == |t.up|
  {
    0 <= i < |t.w| && t.up[i] == -1 && t.w[i] > 0
  }

  // Lighter first, and the lower number first among equals.
  predicate Before(t: Forest, i: int, j: int)
    requires 0 <= i < |t.w| && 0 <= j < |t.w|
  {
    t.w[i] < t.w[j] || (t.w[i] == t.w[j] && i < j)
  }

  ghost predicate TwoLeast(t: Forest, a: int, b: int)
    requires |t.w| == |t.up|
  {
    && Root(t, a) && Root(t, b) && Before(t, a, b)
    && forall i :: Root(t, i) && i != a && i != b ==> Before(t, b, i)
  }

  function Merge(t: Forest, a: int, b: int): Forest
    requires |t.w| == |t.up| == |t.flag| && 0 <= a < |t.w| && 0 <= b < |t.w|
  {
    var k := |t.w|;
    Forest(t.w + [t.w[a] + t.w[b]], t.up[a := k][b := k] + [-1], t.flag[a := 0][b := 1] + [0],
           t.left + [a], t.right + [b])
  }

  lemma MergeShape(t: Forest, a: int, b: int)
    requires Shape(t) && Root(t, a) && Root(t, b) && a != b
    ensures Shape(Merge(t, a, b))
  {
    var u := Merge(t, a, b);
    var n := |t.w|;
    forall i | 0 <= i < n + 1
      ensures Hangs(u, i)
    {
      if i < n { assert Hangs(t, i); }
    }
    forall k | SYMBOLS <= k < n + 1
      ensures Joins(u, k)
    {
      if k < n { assert Joins(t, k); }
    }
  }

  // The Huffman construction as the code bounds it: merge the two least roots until one
  // is left or the node table is full.
  ghost function Build(t: Forest): (r: Forest)
    requires Shape(t)
    ensures Shape(r)
    decreases NODES - |t.w|
  {
    if |t.w| < NODES && exists a, b :: TwoLeast(t, a, b) then
      var a, b :| TwoLeast(t, a, b);
      MergeShape(t, a, b);
      Build(Merge(t, a, b))
    else t
  }

  lemma LeavesShape(freq: seq<int>)
    requires IsFrequencyTable(freq)
    ensures Shape(Leaves(freq))
  {
  }

  ghost function HuffmanForest(freq: seq<int>): (r: Forest)
    requires IsFrequencyTable(freq)
    ensures Shape(r)
  {
    LeavesShape(freq);
    Build(Leaves(freq))
  }

  lemma TwoLeastUnique(t: Forest, a: int, b: int, c: int, d: int)
    requires |t.w| == |t.up| && TwoLeast(t, a, b) && TwoLeast(t, c, d)
    ensures a == c && b == d
  {
  }

  lemma BuildStep(t: Forest, a: int, b: int)
    requires Shape(t) && |t.w| < NODES && TwoLeast(t, a, b)
    ensures Shape(Merge(t, a, b)) && Build(t) == Build(Merge(t, a, b))
  {
    MergeShape(t, a, b);
    forall c, d | TwoLeast(t, c, d)
      ensures c == a && d == b
    {
      TwoLeastUnique(t, a, b, c, d);
    }
  }

  // ---- weights ----

  // What frequency[] holds: the weight of a root, zero for every other node.
  function Remaining(t: Forest, n: nat): (s: seq<int>)
    requires |t.w| == |t.up| <= n
    ensures |s| == n
  {
    seq(n, i => if 0 <= i < |t.w| && t.up[i] == -1 then t.w[i] else 0)
  }

  // A merge moves weight, it never makes or loses any.
  lemma MergeConservesWeight(t: Forest, a: int, b: int, n: nat)
    requires Shape(t) && Root(t, a) && Root(t, b) && a != b && |t.w| < n
    ensures Sum(Remaining(Merge(t, a, b), n)) == Sum(Remaining(t, n))
    ensures Remaining(Merge(t, a, b), n) ==
            Remaining(t, n)[|t.w| := t.w[a] + t.w[b]][a := 0][b := 0]
  {
    var r := Remaining(t, n);
    var r1 := r[|t.w| := t.w[a] + t.w[b]];
    SumUpdate(r, |t.w|, t.w[a] + t.w[b]);
    SumUpdate(r1, a, 0);
    SumUpdate(r1[a := 0], b, 0);
    assert Remaining(Merge(t, a, b), n) == r1[a := 0][b := 0];
  }

  lemma TotalWeight(freq: seq<int>, n: nat)
    requires IsFrequencyTable(freq) && SYMBOLS <= n
    ensures 1 <= Sum(Remaining(Leaves(freq), n)) <= 256 * 255 + 1
  {
    var r := Remaining(Leaves(freq), n);
    SumConcat(r[..257], r[257..]);
    assert r == r[..257] + r[257..];
    SumZeros(r[257..]);
    assert r[..257] == r[..256] + [1];
    SumAppend(r[..256], 1);
    SumBounds(r[..256], 0, 255);
  }

  lemma RootAtMostTotal(t: Forest, i: int, n: nat)
    requires Shape(t) && Root(t, i) && |t.w| <= n
    ensures t.w[i] <= Sum(Remaining(t, n))
  {
    ElementAtMostSum(Remaining(t, n), i);
  }

  lemma {:induction false} BuildConservesWeight(t: Forest)
    requires Shape(t) && |t.w| <= NODES
    ensures |Build(t).w| <= NODES
    ensures Sum(Remaining(Build(t), NODES)) == Sum(Remaining(t, NODES))
    decreases NODES - |t.w|
  {
    if |t.w| < NODES && exists a, b :: TwoLeast(t, a, b) {
      var a, b :| TwoLeast(t, a, b);
      BuildStep(t, a, b);
      MergeConservesWeight(t, a, b, NODES);
      BuildConservesWeight(Merge(t, a, b));
    }
  }

  // ---- heights and Fibonacci numbers ----

  function Fib(n: nat): nat {
    if n < 2 then n else Fib(n - 1) + Fib(n - 2)
  }

  function Max(a: nat, b: nat): nat { if a < b then b else a }

  ghost predicate Kids(left: seq<int>, right: seq<int>) {
    |left| == |right| &&
    forall k :: SYMBOLS <= k < |left| ==> 0 <= left[k] < k && 0 <= right[k] < k
  }

  function Height(left: seq<int>, right: seq<int>, i: int): nat
    requires Kids(left, right) && 0 <= i < |left|
    decreases i
  {
    if i < SYMBOLS then 0 else 1 + Max(Height(left, right, left[i]), Height(left, right, right[i]))
  }

  lemma ShapeKids(t: Forest)
    requires Shape(t)
    ensures Kids(t.left, t.right)
  {
    forall k | SYMBOLS <= k < |t.left|
      ensures 0 <= t.left[k] < k && 0 <= t.right[k] < k
    {
      assert Joins(t, k);
    }
  }

  ghost function H(t: Forest, i: int): nat
    requires Shape(t) && 0 <= i < |t.w|
  {
    ShapeKids(t);
    Height(t.left, t.right, i)
  }

  lemma {:induction false} HeightPrefix(left: seq<int>, right: seq<int>, left': seq<int>, right': seq<int>, i: int)
    requires Kids(left, right) && Kids(left', right') && left <= left' && right <= right' && 0 <= i < |left|
    ensures Height(left', right', i) == Height(left, right, i)
    decreases i
  {
    if i >= SYMBOLS {
      HeightPrefix(left, right, left', right', left[i]);
      HeightPrefix(left, right, left', right', right[i]);
    }
  }

  // A root of height h weighs at least Fib(h + 2), and once it stands no root
  // weighs less than Fib(h + 1).
  ghost predicate FibRoot(t: Forest, y: int)
    requires Shape(t) && Root(t, y)
  {
    t.w[y] >= Fib(H(t, y) + 2) &&
    (H(t, y) >= 1 ==> forall z :: Root(t, z) ==> t.w[z] >= Fib(H(t, y) + 1))
  }

  ghost predicate FibHeavy(t: Forest)
    requires Shape(t)
  {
    forall y :: Root(t, y) ==> FibRoot(t, y)
  }

  lemma MergedNodeIsHeavy(t: Forest, a: int, b: int)
    requires Shape(t) && FibHeavy(t) && TwoLeast(t, a, b)
    ensures var h := 1 + Max(H(t, a), H(t, b));
            t.w[a] + t.w[b] >= Fib(h + 2) && t.w[b] >= Fib(h + 1)
  {
    var h := 1 + Max(H(t, a), H(t, b));
    assert FibRoot(t, a) && FibRoot(t, b);
    assert Fib(h + 2) == Fib(h + 1) + Fib(h);
    if h == 1 {
      assert Fib(2) == 1 && Fib(1) == 1;
    }
  }

  lemma MergeKeepsFibHeavy(t: Forest, a: int, b: int)
    requires Shape(t) && FibHeavy(t) && TwoLeast(t, a, b)
    ensures Shape(Merge(t, a, b)) && FibHeavy(Merge(t, a, b))
  {
    MergeShape(t, a, b);
    var u := Merge(t, a, b);
    var n := |t.w|;
    ShapeKids(t);
    ShapeKids(u);
    MergedNodeIsHeavy(t, a, b);
    HeightPrefix(t.left, t.right, u.left, u.right, a);
    HeightPrefix(t.left, t.right, u.left, u.right, b);
    assert H(u, n) == 1 + Max(H(t, a), H(t, b));
    forall z | Root(u, z)
      ensures u.w[z] >= t.w[b]
    {
      if z < n { assert Root(t, z) && z != a && z != b; }
    }
    forall y | Root(u, y)
      ensures FibRoot(u, y)
    {
      if y < n {
        assert Root(t, y) && FibRoot(t, y);
        HeightPrefix(t.left, t.right, u.left, u.right, y);
        assert FibRoot(t, y);
        assert Root(t, b);
      }
    }
  }

  lemma LeavesFibHeavy(freq: seq<int>)
    requires IsFrequencyTable(freq)
    ensures Shape(Leaves(freq)) && FibHeavy(Leaves(freq))
  {
    var t := Leaves(freq);
    forall y | Root(t, y)
      ensures FibRoot(t, y)
    {
      assert Fib(2) == 1;
    }
  }

  lemma {:induction false} BuildKeepsFibHeavy(t: Forest)
    requires Shape(t) && FibHeavy(t)
    ensures FibHeavy(Build(t))
    decreases NODES - |t.w|
  {
    if |t.w| < NODES && exists a, b :: TwoLeast(t, a, b) {
      var a, b :| TwoLeast(t, a, b);
      BuildStep(t, a, b);
      MergeKeepsFibHeavy(t, a, b);
      BuildKeepsFibHeavy(Merge(t, a, b));
    }
  }

  lemma {:induction false} FibMonotone(m: nat, n: nat)
    requires m <= n
    ensures Fib(m) <= Fib(n)
  {
    if m < n {
      FibMonotone(m, n - 1);
    }
  }

  lemma Fib25()
    ensures Fib(25) == 75025
  {
    assert Fib(5) == 5 && Fib(6) == 8;
    assert Fib(9) == 34 && Fib(10) == 55;
    assert Fib(13) == 233 && Fib(14) == 377;
    assert Fib(17) == 1597 && Fib(18) == 2584;
    assert Fib(21) == 10946 && Fib(22) == 17711;
  }

  // ---- codes ----

  ghost predicate Upward(up: seq<int>) {
    forall i :: 0 <= i < |up| ==> up[i] == -1 || i < up[i] < |up|
  }

  // The branches from the root down to node i.
  function Code(up: seq<int>, flag: seq<int>, i: int): (c: seq<int>)
    requires Upward(up) && |flag| == |up| && 0 <= i < |up|
    decreases |up| - i
  {
    if up[i] == -1 then [] else Code(up, flag, up[i]) + [flag[i]]
  }

  function Value(code: seq<int>): int {
    if code == [] then 0 else 2 * Value(code[..|code| - 1]) + code[|code| - 1]
  }

  lemma ShapeUpward(t: Forest)
    requires Shape(t)
    ensures Upward(t.up)
  {
    forall i | 0 <= i < |t.up|
      ensures t.up[i] == -1 || i < t.up[i] < |t.up|
    {
      assert Hangs(t, i);
    }
  }

  ghost function CodeOf(t: Forest, i: int): seq<int>
    requires Shape(t) && 0 <= i < |t.w|
  {
    ShapeUpward(t);
    Code(t.up, t.flag, i)
  }

  // Climbing from a used node ends at a root that is at least as high as the climb is long.
  lemma {:induction false} ClimbToRoot(t: Forest, i: int) returns (r: int)
    requires Shape(t) && 0 <= i < |t.w| && t.w[i] > 0
    ensures Root(t, r) && |CodeOf(t, i)| + H(t, i) <= H(t, r)
    ensures forall j :: 0 <= j < |CodeOf(t, i)| ==> CodeOf(t, i)[j] == 0 || CodeOf(t, i)[j] == 1
    decreases |t.w| - i
  {
    ShapeKids(t);
    ShapeUpward(t);
    if t.up[i] == -1 {
      r := i;
    } else {
      assert Hangs(t, i);
      assert Joins(t, t.up[i]);
      r := ClimbToRoot(t, t.up[i]);
    }
  }

  // The bound the source wonders about: no code is longer than 22 bits.
  lemma CodeLengthAtMost22(freq: seq<int>, s: int)
    requires IsFrequencyTable(freq) && 0 <= s < |HuffmanForest(freq).w|
    ensures |CodeOf(HuffmanForest(freq), s)| <= 22
  {
    var t := HuffmanForest(freq);
    ShapeUpward(t);
    if t.up[s] != -1 {
      assert Hangs(t, s);
      var r := ClimbToRoot(t, s);
      LeavesFibHeavy(freq);
      BuildKeepsFibHeavy(Leaves(freq));
      assert FibRoot(t, r);
      BuildConservesWeight(Leaves(freq));
      TotalWeight(freq, NODES);
      RootAtMostTotal(t, r, NODES);
      Fib25();
      if H(t, r) >= 23 {
        FibMonotone(25, H(t, r) + 2);
        assert false;
      }
    }
  }

  // Every used node, inner ones included, is at most 22 branches below its root.
  ghost predicate Shallow(t: Forest)
    requires Shape(t)
  {
    forall i :: 0 <= i < |t.w| && t.w[i] > 0 ==> |CodeOf(t, i)| <= 22
  }

  // ---- how many trees are left ----

  function RootMarks(t: Forest): (s: seq<int>)
    requires |t.w| == |t.up|
    ensures |s| == |t.w|
  {
    seq(|t.w|, i => if Root(t, i) then 1 else 0)
  }

  function Roots(t: Forest): int
    requires |t.w| == |t.up|
  {
    Sum(RootMarks(t))
  }

  function LiveSymbols(freq: seq<int>): int {
    Sum(seq(|freq|, i => if 0 <= i < |freq| && freq[i] > 0 then 1 else 0))
  }

  lemma MergeDropsOneRoot(t: Forest, a: int, b: int)
    requires Shape(t) && Root(t, a) && Root(t, b) && a != b
    ensures Roots(Merge(t, a, b)) == Roots(t) - 1
  {
    var m := RootMarks(t);
    SumUpdate(m, a, 0);
    SumUpdate(m[a := 0], b, 0);
    SumAppend(m[a := 0][b := 0], 1);
    assert RootMarks(Merge(t, a, b)) == m[a := 0][b := 0] + [1];
  }

  lemma SomeMark(marks: seq<int>) returns (i: int)
    requires Sum(marks) >= 1 && forall k :: 0 <= k < |marks| ==> marks[k] == 0 || marks[k] == 1
    ensures 0 <= i < |marks| && marks[i] == 1
  {
    if forall k :: 0 <= k < |marks| ==> marks[k] == 0 {
      SumZeros(marks);
    }
    i :| 0 <= i < |marks| && marks[i] == 1;
  }

  lemma TwoRoots(t: Forest) returns (a: int, b: int)
    requires |t.w| == |t.up| && Roots(t) >= 2
    ensures Root(t, a) && Root(t, b) && a != b
  {
    var m := RootMarks(t);
    a := SomeMark(m);
    SumUpdate(m, a, 0);
    b := SomeMark(m[a := 0]);
  }

  lemma RootsAtMostOne(t: Forest, a: int)
    requires |t.w| == |t.up| && Roots(t) == 1 && Root(t, a)
    ensures forall b :: Root(t, b) ==> b == a
  {
    forall b | Root(t, b)
      ensures b == a
    {
      if b != a {
        var m := RootMarks(t);
        SumUpdate(m, a, 0);
        SumUpdate(m[a := 0], b, 0);
        SumBoundsNonNegative(m[a := 0][b := 0]);
      }
    }
  }

  // The least root below n, the root ex aside.
  lemma {:induction false} LeastRoot(t: Forest, n: nat, ex: int, some: int) returns (m: int)
    requires |t.w| == |t.up| && n <= |t.w|
    requires Root(t, some) && some < n && some != ex
    ensures Root(t, m) && m < n && m != ex
    ensures forall i :: Root(t, i) && i < n && i != ex && i != m ==> Before(t, m, i)
  {
    m := n - 1;
    if exists i :: Root(t, i) && i < n - 1 && i != ex {
      var i :| Root(t, i) && i < n - 1 && i != ex;
      var l := LeastRoot(t, n - 1, ex, i);
      if !Root(t, m) || m == ex || Before(t, l, m) {
        m := l;
      }
    }
  }

  lemma TwoLeastExist(t: Forest)
    requires |t.w| == |t.up| && Roots(t) >= 2
    ensures exists a, b :: TwoLeast(t, a, b)
  {
    var x, y := TwoRoots(t);
    var a := LeastRoot(t, |t.w|, -1, x);
    var b := LeastRoot(t, |t.w|, a, if x == a then y else x);
    assert TwoLeast(t, a, b);
  }

  lemma {:induction false} BuildCountsRoots(t: Forest)
    requires Shape(t) && |t.w| <= NODES && Roots(t) >= 1
    ensures Roots(Build(t)) >= 1
    ensures |Build(t).w| + Roots(Build(t)) == |t.w| + Roots(t)
    ensures |Build(t).w| <= NODES
    ensures |Build(t).w| < NODES ==> Roots(Build(t)) == 1
    decreases NODES - |t.w|
  {
    if |t.w| < NODES && exists a, b :: TwoLeast(t, a, b) {
      var a, b :| TwoLeast(t, a, b);
      BuildStep(t, a, b);
      MergeDropsOneRoot(t, a, b);
      var m := RootMarks(t);
      SumUpdate(m, a, 0);
      ElementAtMostSum(m[a := 0], b);
      BuildCountsRoots(Merge(t, a, b));
    } else if Roots(t) >= 2 {
      TwoLeastExist(t);
    }
  }

  lemma LiveSymbolsBounds(freq: seq<int>)
    requires IsFrequencyTable(freq)
    ensures 1 <= LiveSymbols(freq) <= SYMBOLS
    ensures Roots(Leaves(freq)) == LiveSymbols(freq)
    ensures LiveSymbols(freq) == SYMBOLS <==> forall i :: 0 <= i < 256 ==> freq[i] != 0
  {
    var s := seq(|freq|, i => if 0 <= i < |freq| && freq[i] > 0 then 1 else 0);
    assert RootMarks(Leaves(freq)) == s;
    SumBounds(s, 0, 1);
    ElementAtMostSum(s, 256);
    if i :| 0 <= i < 256 && freq[i] == 0 {
      SumUpdate(s, i, 1);
      SumBounds(s[i := 1], 0, 1);
    } else {
      SumBounds(s, 1, 1);
    }
  }

  // 255 merges fit in the node table, so one tree remains exactly when some byte is
  // unused; with all 257 symbols live two trees remain.
  lemma TreesLeft(freq: seq<int>)
    requires IsFrequencyTable(freq)
    ensures Roots(HuffmanForest(freq)) == if LiveSymbols(freq) == SYMBOLS then 2 else 1
    ensures Roots(HuffmanForest(freq)) == 1 <==> SomeByteUnused(freq)
  {
    LiveSymbolsBounds(freq);
    LeavesShape(freq);
    BuildCountsRoots(Leaves(freq));
  }

  // ---- Kraft sum ----

  // Node i stands at the top of its own tree just before merge k.
  ghost predicate Live(t: Forest, i: int, k: int)
    requires |t.w| == |t.up|
  {
    0 <= i < k <= |t.w| && t.w[i] > 0 && (t.up[i] == -1 || t.up[i] >= k)
  }

  ghost function Mass(t: Forest, i: int): int
    requires Shape(t) && 0 <= i < |t.w|
  {
    var d := |CodeOf(t, i)|;
    if d <= 22 then Pow2(22 - d) else 0
  }

  ghost function Frontier(t: Forest, k: nat): (s: seq<int>)
    requires Shape(t) && k <= |t.w|
    ensures |s| == k
  {
    seq(k, i => if 0 <= i < k && Live(t, i, k) then Mass(t, i) else 0)
  }

  lemma FrontierStep(t: Forest, k: nat)
    requires Shape(t) && Shallow(t) && SYMBOLS <= k < |t.w|
    ensures Sum(Frontier(t, k + 1)) == Sum(Frontier(t, k))
  {
    assert Joins(t, k);
    ShapeUpward(t);
    var a, b := t.left[k], t.right[k];
    var f := Frontier(t, k);
    assert CodeOf(t, a) == CodeOf(t, k) + [0];
    assert CodeOf(t, b) == CodeOf(t, k) + [1];
    assert Mass(t, k) == Mass(t, a) + Mass(t, b);
    var g := Frontier(t, k + 1);
    forall i | 0 <= i < k
      ensures g[i] == f[a := 0][b := 0][i]
    {
      assert Hangs(t, i);
    }
    assert g == f[a := 0][b := 0] + [Mass(t, k)];
    SumUpdate(f, a, 0);
    SumUpdate(f[a := 0], b, 0);
    SumAppend(f[a := 0][b := 0], Mass(t, k));
  }

  lemma FrontierOfRoots(t: Forest)
    requires Shape(t)
    ensures Sum(Frontier(t, |t.w|)) == Pow2(22) * Roots(t)
  {
    ShapeUpward(t);
    var g, m, c := Frontier(t, |t.w|), RootMarks(t), Pow2(22);
    forall i | 0 <= i < |t.w|
      ensures g[i] == c * m[i]
    {
      assert Hangs(t, i);
      if Root(t, i) {
        assert CodeOf(t, i) == [];
        assert m[i] == 1 && g[i] == c;
      } else {
        assert m[i] == 0 && g[i] == 0;
      }
    }
    SumScale(m, g, c);
  }

  lemma {:induction false} FrontierSum(t: Forest, k: nat)
    requires Shape(t) && Shallow(t) && SYMBOLS <= k <= |t.w|
    ensures Sum(Frontier(t, k)) == Pow2(22) * Roots(t)
    decreases |t.w| - k
  {
    if k == |t.w| {
      FrontierOfRoots(t);
    } else {
      FrontierSum(t, k + 1);
      FrontierStep(t, k);
    }
  }

  // ---- prefix freedom ----

  ghost predicate Bits(code: seq<int>) {
    forall j :: 0 <= j < |code| ==> code[j] == 0 || code[j] == 1
  }

  lemma CodeIsBits(t: Forest, i: int)
    requires Shape(t) && 0 <= i < |t.w|
    ensures Bits(CodeOf(t, i))
  {
    ShapeUpward(t);
    if t.up[i] != -1 {
      assert Hangs(t, i);
      var r := ClimbToRoot(t, i);
    }
  }

  // Under a single root, a code leads to one node only.
  lemma {:induction false} SameCodeSameNode(t: Forest, i: int, j: int)
    requires Shape(t) && Roots(t) == 1
    requires 0 <= i < |t.w| && 0 <= j < |t.w| && t.w[i] > 0 && t.w[j] > 0
    requires CodeOf(t, i) == CodeOf(t, j)
    ensures i == j
    decreases |t.w| - i
  {
    ShapeUpward(t);
    assert Hangs(t, i) && Hangs(t, j);
    if t.up[i] == -1 {
      assert |CodeOf(t, j)| == 0;
      assert Root(t, i) && Root(t, j);
      RootsAtMostOne(t, i);
    } else {
      var c, d := CodeOf(t, i), CodeOf(t, j);
      assert t.up[j] != -1;
      var p, q := t.up[i], t.up[j];
      assert c == CodeOf(t, p) + [t.flag[i]] && d == CodeOf(t, q) + [t.flag[j]];
      assert CodeOf(t, p) == c[..|c| - 1] == d[..|d| - 1] == CodeOf(t, q);
      assert t.flag[i] == c[|c| - 1] == d[|d| - 1] == t.flag[j];
      assert Joins(t, p) && Joins(t, q);
      SameCodeSameNode(t, p, q);
    }
  }

  // If the code of a node starts the code of j, the node is j or an ancestor of j.
  lemma {:induction false} PrefixIsAncestor(t: Forest, i: int, j: int)
    requires Shape(t) && Roots(t) == 1
    requires 0 <= i < |t.w| && 0 <= j < |t.w| && t.w[i] > 0 && t.w[j] > 0
    requires CodeOf(t, i) <= CodeOf(t, j)
    ensures i == j || i >= SYMBOLS
    decreases |t.w| - j
  {
    ShapeUpward(t);
    assert Hangs(t, j);
    var c, d := CodeOf(t, i), CodeOf(t, j);
    if |c| == |d| {
      assert c == d;
      SameCodeSameNode(t, i, j);
    } else {
      var q := t.up[j];
      assert Joins(t, q);
      assert CodeOf(t, q) == d[..|d| - 1];
      PrefixIsAncestor(t, i, q);
    }
  }

  ghost predicate PrefixFree(t: Forest)
    requires Shape(t)
  {
    forall a, b :: 0 <= a < SYMBOLS && 0 <= b < SYMBOLS && t.w[a] > 0 && t.w[b] > 0 && a != b ==>
      !(CodeOf(t, a) <= CodeOf(t, b))
  }

  // The root above a node.
  function Top(up: seq<int>, i: int): (r: int)
    requires Upward(up) && 0 <= i < |up|
    ensures 0 <= r < |up| && up[r] == -1
    decreases |up| - i
  {
    if up[i] == -1 then i else Top(up, up[i])
  }

  // Going left from node i ends at a symbol whose code adds only zeros.
  lemma {:induction false} LeftmostLeaf(t: Forest, i: int) returns (s: int, zeros: seq<int>)
    requires Shape(t) && 0 <= i < |t.w| && t.w[i] > 0
    ensures 0 <= s < SYMBOLS && t.w[s] > 0
    ensures Upward(t.up) && Top(t.up, s) == Top(t.up, i)
    ensures CodeOf(t, s) == CodeOf(t, i) + zeros && forall k :: 0 <= k < |zeros| ==> zeros[k] == 0
    decreases i
  {
    ShapeUpward(t);
    if i < SYMBOLS {
      s, zeros := i, [];
    } else {
      assert Joins(t, i);
      var z;
      s, z := LeftmostLeaf(t, t.left[i]);
      zeros := [0] + z;
      assert CodeOf(t, t.left[i]) == CodeOf(t, i) + [0];
    }
  }

  lemma TwoTreesClash(t: Forest)
    requires Shape(t) && Roots(t) >= 2
    ensures !PrefixFree(t)
  {
    ShapeUpward(t);
    var r1, r2 := TwoRoots(t);
    var a, za := LeftmostLeaf(t, r1);
    var b, zb := LeftmostLeaf(t, r2);
    assert CodeOf(t, r1) == [] && CodeOf(t, r2) == [];
    assert Top(t.up, r1) == r1 && Top(t.up, r2) == r2;
    assert CodeOf(t, a) == za && CodeOf(t, b) == zb;
    assert a != b;
    if |za| <= |zb| {
      assert CodeOf(t, a) <= CodeOf(t, b);
    } else {
      assert CodeOf(t, b) <= CodeOf(t, a);
    }
  }

  // The table built is a prefix code exactly when some byte value does not occur.
  lemma PrefixFreeIff(freq: seq<int>)
    requires IsFrequencyTable(freq)
    ensures PrefixFree(HuffmanForest(freq)) <==> SomeByteUnused(freq)
  {
    TreesLeft(freq);
    var t := HuffmanForest(freq);
    if Roots(t) == 1 {
      forall a, b | 0 <= a < SYMBOLS && 0 <= b < SYMBOLS && t.w[a] > 0 && t.w[b] > 0 && a != b
        ensures !(CodeOf(t, a) <= CodeOf(t, b))
      {
        if CodeOf(t, a) <= CodeOf(t, b) {
          PrefixIsAncestor(t, a, b);
        }
      }
    } else {
      TwoTreesClash(t);
    }
  }

  lemma {:induction false} BuildKeepsSymbolWeights(t: Forest)
    requires Shape(t)
    ensures Build(t).w[..SYMBOLS] == t.w[..SYMBOLS]
    decreases NODES - |t.w|
  {
    if |t.w| < NODES && exists a, b :: TwoLeast(t, a, b) {
      var a, b :| TwoLeast(t, a, b);
      BuildStep(t, a, b);
      BuildKeepsSymbolWeights(Merge(t, a, b));
    }
  }

  lemma SymbolWeights(freq: seq<int>)
    requires IsFrequencyTable(freq)
    ensures forall s :: 0 <= s < SYMBOLS ==> HuffmanForest(freq).w[s] == freq[s]
  {
    var t := HuffmanForest(freq);
    LeavesShape(freq);
    BuildKeepsSymbolWeights(Leaves(freq));
    assert forall s :: 0 <= s < SYMBOLS ==> t.w[s] == t.w[..SYMBOLS][s] == freq[s];
  }

  lemma ForestIsShallow(freq: seq<int>)
    requires IsFrequencyTable(freq)
    ensures Shallow(HuffmanForest(freq))
  {
    var t := HuffmanForest(freq);
    forall i | 0 <= i < |t.w|
      ensures |CodeOf(t, i)| <= 22
    {
      CodeLengthAtMost22(freq, i);
    }
  }

  // 2^22 times the Kraft sum of the codes given to the live symbols.
  ghost function KraftTerms(freq: seq<int>, lens: seq<int>): (s: seq<int>)
    requires |freq| == |lens| == SYMBOLS
  {
    seq(SYMBOLS, s => if 0 <= s < SYMBOLS && freq[s] > 0 && 0 <= lens[s] <= 22 then Pow2(22 - lens[s]) else 0)
  }

  lemma FrontierOfSymbols(freq: seq<int>, lens: seq<int>)
    requires IsFrequencyTable(freq) && |lens| == SYMBOLS
    requires forall s :: 0 <= s < SYMBOLS ==> lens[s] == |CodeOf(HuffmanForest(freq), s)|
    ensures Frontier(HuffmanForest(freq), SYMBOLS) == KraftTerms(freq, lens)
  {
    var t := HuffmanForest(freq);
    SymbolWeights(freq);
    var f, g := Frontier(t, SYMBOLS), KraftTerms(freq, lens);
    forall i | 0 <= i < SYMBOLS
      ensures f[i] == g[i]
    {
      assert Hangs(t, i);
      assert Live(t, i, SYMBOLS) <==> freq[i] > 0;
    }
  }

  // The Kraft sum is exactly the number of trees left: 1, or 2 when all 257 symbols are live.
  lemma KraftSum(freq: seq<int>, lens: seq<int>)
    requires IsFrequencyTable(freq) && |lens| == SYMBOLS
    requires forall s :: 0 <= s < SYMBOLS ==> lens[s] == |CodeOf(HuffmanForest(freq), s)|
    ensures Sum(KraftTerms(freq, lens)) == Pow2(22) * Roots(HuffmanForest(freq))
  {
    var t := HuffmanForest(freq);
    SymbolWeights(freq);
    ForestIsShallow(freq);
    FrontierSum(t, SYMBOLS);
    FrontierOfSymbols(freq, lens);
  }

  // ---- codes as numbers ----

  lemma {:induction false} ValueInjective(a: seq<int>, b: seq<int>)
    requires Bits(a) && Bits(b) && |a| == |b| && Value(a) == Value(b)
    ensures a == b
  {
    if a != [] {
      var n := |a| - 1;
      ValueInjective(a[..n], b[..n]);
      assert a == a[..n] + [a[n]] && b == b[..n] + [b[n]];
    }
  }

  // Dropping the low bits of the number is dropping the tail of the code.
  lemma {:induction false} ValueShift(code: seq<int>, k: nat)
    requires Bits(code) && k <= |code|
    ensures Value(code) / Pow2(k) == Value(code[..|code| - k])
  {
    if k == 0 {
      assert code[..|code|] == code;
    } else {
      var c := code[..|code| - 1];
      ValueShift(c, k - 1);
      assert c[..|c| - (k - 1)] == code[..|code| - k];
      HalfThenShift(Value(c), code[|code| - 1], k);
    }
  }

  // Code (lenA, bitsA) is the start of code (lenB, bitsB), both read most significant bit first.
  predicate Starts(lenA: int, bitsA: int, lenB: int, bitsB: int) {
    0 <= lenA <= lenB && bitsB / Pow2(lenB - lenA) == bitsA
  }

  lemma StartsIsPrefix(a: seq<int>, b: seq<int>)
    requires Bits(a) && Bits(b)
    ensures Starts(|a|, Value(a), |b|, Value(b)) <==> a <= b
  {
    if |a| <= |b| {
      ValueShift(b, |b| - |a|);
      var c := b[..|a|];
      if Value(c) == Value(a) {
        ValueInjective(c, a);
      }
      assert a <= b <==> c == a;
    }
  }

  ghost predicate SomeByteUnused(freq: seq<int>)
    requires |freq| == SYMBOLS
  {
    exists i :: 0 <= i < 256 && freq[i] == 0
  }

  // The (length, bits) pairs of the live symbols form a prefix code.
  ghost predicate IsPrefixCode(freq: seq<int>, lens: seq<int>, bits: seq<int>)
    requires |freq| == |lens| == |bits| == SYMBOLS
  {
    forall a, b :: 0 <= a < SYMBOLS && 0 <= b < SYMBOLS && freq[a] > 0 && freq[b] > 0 && a != b ==>
      !Starts(lens[a], bits[a], lens[b], bits[b])
  }

  // ---- the three loops of read_huffman_tables ----

  // One scan for the two least live weights among the first j nodes.
  method FindTwoLeast(frequency: array<int>, j: int, ghost t: Forest)
      returns (min0: int, min1: int, smallest0: int, smallest1: int)
    requires frequency.Length == NODES && Shape(t) && |t.w| == j < NODES
    requires frequency[..] == Remaining(t, NODES)
    requires forall i :: Root(t, i) ==> t.w[i] < TOP
    ensures min1 == TOP ==> forall a, b :: !TwoLeast(t, a, b)
    ensures min1 != TOP ==>
              TwoLeast(t, smallest0, smallest1) && min0 == t.w[smallest0] && min1 == t.w[smallest1]
  {
    min0, min1, smallest0, smallest1 := TOP, TOP, 0, 0;
    for i := 0 to j
      invariant min0 == TOP ==> min1 == TOP && forall k :: Root(t, k) ==> k >= i
      invariant min0 < TOP ==> Root(t, smallest0) && smallest0 < i && min0 == t.w[smallest0]
      invariant min0 <= TOP && min1 <= TOP
      invariant min1 < TOP ==> Root(t, smallest1) && smallest1 < i && min1 == t.w[smallest1] && min0 < TOP &&
                               Before(t, smallest0, smallest1)
      invariant min1 < TOP ==>
                  forall k :: Root(t, k) && k < i && k != smallest0 && k != smallest1 ==> Before(t, smallest1, k)
      invariant min1 == TOP ==> forall k :: Root(t, k) && k < i ==> k == smallest0
    {
      assert frequency[i] == Remaining(t, NODES)[i];
      assert frequency[i] != 0 <==> Root(t, i);
      if frequency[i] == 0 { continue; }
      if frequency[i] < min1 {
        if frequency[i] < min0 {
          min1, smallest1 := min0, smallest0;
          min0, smallest0 := frequency[i], i;
        } else {
          min1, smallest1 := frequency[i], i;
        }
      }
    }
  }

  ghost predicate Matches(frequency: array<int>, flag: array<int>, up: array<int>, t: Forest)
    reads frequency, flag, up
  {
    && frequency.Length == flag.Length == up.Length == NODES
    && Shape(t) && |t.w| <= NODES
    && frequency[..] == Remaining(t, NODES)
    && (forall i :: 0 <= i < |t.w| ==> up[i] == t.up[i])
    && (forall i :: |t.w| <= i < NODES ==> up[i] == -1)
    && (forall i :: 0 <= i < |t.w| && t.up[i] != -1 ==> flag[i] == t.flag[i])
  }

  // One merge written into the three tables.
  method RecordMerge(frequency: array<int>, flag: array<int>, up: array<int>, j: int, min0: int, min1: int,
                     smallest0: int, smallest1: int, ghost t: Forest)
    requires frequency != flag && frequency != up && flag != up
    requires Matches(frequency, flag, up, t) && |t.w| == j < NODES
    requires TwoLeast(t, smallest0, smallest1) && min0 == t.w[smallest0] && min1 == t.w[smallest1]
    modifies frequency, flag, up
    ensures Matches(frequency, flag, up, Merge(t, smallest0, smallest1))
  {
    MergeShape(t, smallest0, smallest1);
    MergeConservesWeight(t, smallest0, smallest1, NODES);
    frequency[j] := min0 + min1;
    flag[smallest0] := 0;
    flag[smallest1] := 1;
    up[smallest1] := j;
    up[smallest0] := j;
    frequency[smallest1] := 0;
    frequency[smallest0] := 0;
  }

  method MergeLoop(frequency: array<int>, flag: array<int>, up: array<int>, ghost freq: seq<int>)
      returns (ghost t: Forest)
    requires frequency != flag && frequency != up && flag != up
    requires IsFrequencyTable(freq) && Matches(frequency, flag, up, Leaves(freq))
    modifies frequency, flag, up
    ensures Matches(frequency, flag, up, HuffmanForest(freq))
  {
    t := Leaves(freq);
    TotalWeight(freq, NODES);
    for j := SYMBOLS to NODES
      invariant Matches(frequency, flag, up, t) && |t.w| == j
      invariant Build(t) == HuffmanForest(freq)
      invariant Sum(Remaining(t, NODES)) < TOP
    {
      forall i | Root(t, i)
        ensures t.w[i] < TOP
      {
        RootAtMostTotal(t, i, NODES);
      }
      var min0, min1, s0, s1 := FindTwoLeast(frequency, j, t);
      if min1 == TOP { break; }
      RecordMerge(frequency, flag, up, j, min0, min1, s0, s1, t);
      BuildStep(t, s0, s1);
      MergeConservesWeight(t, s0, s1, NODES);
      t := Merge(t, s0, s1);
    }
  }

  // Climbs from one symbol to its root, collecting the branch taken at each node.
  method ReadOffCode(flag: array<int>, up: array<int>, j: int, ghost t: Forest)
      returns (len: int, bits: int, overflow: bool)
    requires flag.Length == up.Length == NODES && Shape(t) && |t.w| <= NODES && 0 <= j < SYMBOLS
    requires forall i :: 0 <= i < |t.w| ==> up[i] == t.up[i]
    requires forall i :: 0 <= i < |t.w| && t.up[i] != -1 ==> flag[i] == t.flag[i]
    ensures len == |CodeOf(t, j)| && bits == Value(CodeOf(t, j))
    ensures overflow <==> len > 31
  {
    ShapeUpward(t);
    len, bits, overflow := 0, 0, false;
    var node := j;
    while up[node] != -1
      invariant 0 <= node < |t.w| && len >= 0
      invariant |CodeOf(t, j)| == len + |CodeOf(t, node)|
      invariant Value(CodeOf(t, j)) == bits + Pow2(len) * Value(CodeOf(t, node))
      invariant overflow <==> len > 31
      decreases |t.w| - node
    {
      var c := CodeOf(t, node);
      assert c == CodeOf(t, t.up[node]) + [t.flag[node]];
      assert c[..|c| - 1] == CodeOf(t, t.up[node]);
      ghost var v := Value(CodeOf(t, t.up[node]));
      assert Pow2(len) * (2 * v + t.flag[node]) == Pow2(len + 1) * v + flag[node] * Pow2(len);
      bits := bits + flag[node] * Pow2(len);
      len := len + 1;
      if len > 31 { overflow := true; }
      node := up[node];
    }
  }

  // The code tables of all 257 symbols; unused symbols and a lone root get the empty code.
  method ReadOffCodes(flag: array<int>, up: array<int>, ghost t: Forest)
      returns (lenTab: array<int>, bitsTab: array<int>, overflow: bool)
    requires flag.Length == up.Length == NODES && Shape(t) && |t.w| <= NODES && Shallow(t)
    requires forall i :: 0 <= i < |t.w| ==> up[i] == t.up[i]
    requires forall i :: 0 <= i < |t.w| && t.up[i] != -1 ==> flag[i] == t.flag[i]
    ensures fresh(lenTab) && fresh(bitsTab) && lenTab.Length == bitsTab.Length == SYMBOLS
    ensures !overflow
    ensures forall s :: 0 <= s < SYMBOLS ==> lenTab[s] == |CodeOf(t, s)| && bitsTab[s] == Value(CodeOf(t, s))
  {
    lenTab, bitsTab, overflow := new int[SYMBOLS], new int[SYMBOLS], false;
    for j := 0 to SYMBOLS
      invariant !overflow
      invariant forall s :: 0 <= s < j ==> lenTab[s] == |CodeOf(t, s)| && bitsTab[s] == Value(CodeOf(t, s))
    {
      var len, bits, over := ReadOffCode(flag, up, j, t);
      ShapeUpward(t);
      assert Hangs(t, j);
      assert len <= 22;
      overflow := overflow || over;
      bitsTab[j] := bits;
      lenTab[j] := len;
    }
  }

  method BuildTables(freq: seq<int>) returns (lenTab: array<int>, bitsTab: array<int>, overflow: bool)
    requires IsFrequencyTable(freq)
    ensures fresh(lenTab) && fresh(bitsTab) && lenTab.Length == bitsTab.Length == SYMBOLS
    ensures !overflow
    ensures forall s :: 0 <= s < SYMBOLS ==>
              lenTab[s] == |CodeOf(HuffmanForest(freq), s)| && bitsTab[s] == Value(CodeOf(HuffmanForest(freq), s))
  {
    var frequency := new int[NODES](i => if 0 <= i < |freq| then freq[i] else 0);
    var flag := new int[NODES](i => 0);
    var up := new int[NODES](i => -1);
    LeavesShape(freq);
    assert frequency[..] == Remaining(Leaves(freq), NODES);
    ghost var t := MergeLoop(frequency, flag, up, freq);
    ForestIsShallow(freq);
    lenTab, bitsTab, overflow := ReadOffCodes(flag, up, HuffmanForest(freq));
  }

  // ---- the frequencies in the data ----

  // Symbols start to end and the frequency of each; of symbols listed twice the last counts.
  datatype Range = Range(start: int, end: int, values: seq<int>)

  // The data end too soon, or the ranges and how many bytes they took.
  datatype Reading = Short | Read(ranges: seq<Range>, used: nat)

  function CountOf(start: int, end: int): nat { if start <= end then end - start + 1 else 0 }

  // The ranges from pos on: each is two bytes and its values, and a zero after a range ends them.
  function ReadFrom(buf: seq<int>, pos: nat): Reading
    decreases |buf| - pos
  {
    if pos + 2 > |buf| || pos + 2 + CountOf(buf[pos], buf[pos + 1]) >= |buf| then Short
    else
      var next := pos + 2 + CountOf(buf[pos], buf[pos + 1]);
      var r := Range(buf[pos], buf[pos + 1], buf[pos + 2..next]);
      if buf[next] == 0 then Read([r], next + 1) else With(r, ReadFrom(buf, next))
  }

  function With(r: Range, rest: Reading): Reading { if rest.Short? then Short else Read([r] + rest.ranges, rest.used) }

  // Ranges as they stand in the data.
  function RangeBytes(ranges: seq<Range>): seq<int> {
    if ranges == [] then []
    else [ranges[0].start, ranges[0].end] + ranges[0].values + RangeBytes(ranges[1..])
  }

  ghost predicate RangeOk(r: Range) { |r.values| == CountOf(r.start, r.end) }

  // Only the first range can start at symbol 0.
  ghost predicate RangesOk(ranges: seq<Range>) {
    ranges != [] && (forall k :: 0 <= k < |ranges| ==> RangeOk(ranges[k])) && forall k :: 1 <= k < |ranges| ==>
      ranges[k].start != 0
  }

  // What is listed is what is read, whatever comes before and after it.
  lemma {:induction false} RangesRoundTrip(buf: seq<int>, pos: nat, ranges: seq<Range>)
    requires RangesOk(ranges) && pos <= |buf| && RangeBytes(ranges) + [0] <= buf[pos..]
    ensures ReadFrom(buf, pos) == Read(ranges, pos + |RangeBytes(ranges)| + 1)
    decreases |ranges|
  {
    var r, more := ranges[0], RangeBytes(ranges[1..]);
    var n := |r.values|;
    OneRange(buf, pos, r, more);
    if |ranges| > 1 {
      assert ranges[1..][0].start != 0 && more[0] == ranges[1].start;
      RangesRoundTrip(buf, pos + 2 + n, ranges[1..]);
      assert [r] + ranges[1..] == ranges;
    } else {
      assert more == [] && ranges == [r];
    }
  }

  lemma OneRange(buf: seq<int>, pos: nat, r: Range, more: seq<int>)
    requires pos <= |buf| && [r.start, r.end] + r.values + more + [0] <= buf[pos..]
    ensures var next := pos + 2 + |r.values|;
      && next < |buf| && buf[pos] == r.start && buf[pos + 1] == r.end && buf[pos + 2..next] == r.values
      && more + [0] <= buf[next..] && buf[next] == (more + [0])[0]
  {
    var all, n := [r.start, r.end] + r.values + more + [0], |r.values|;
    assert forall k :: 0 <= k < |all| ==> buf[pos + k] == all[k];
    assert all[2..2 + n] == r.values && all[2 + n..] == more + [0];
  }

  // The frequency of a symbol after the first n ranges.
  function Listed(ranges: seq<Range>, n: nat, symbol: int): int
    requires n <= |ranges|
  {
    if n == 0 then 0
    else
      var r := ranges[n - 1];
      if r.start <= symbol <= r.end && symbol - r.start < |r.values| then r.values[symbol - r.start]
      else Listed(ranges, n - 1, symbol)
  }

  // The table that the ranges make; symbol 256 ends a block.
  function Frequencies(ranges: seq<Range>): (freq: seq<int>)
    ensures |freq| == SYMBOLS
  {
    seq(SYMBOLS, i => if i == 256 then 1 else Listed(ranges, |ranges|, i))
  }

  function Aligned(n: nat): nat { (n + 3) / 4 * 4 }

  // The values of one range of symbols; false if the data end first.
  method ReadRange(buf: seq<int>, frequency: array<int>, ptr0: nat, start: int, end: int) returns (ptr: nat, ok: bool)
    requires frequency.Length == NODES && 0 <= start <= 255 && 0 <= end <= 255 && ptr0 <= |buf|
    modifies frequency
    ensures ok <==> ptr0 + CountOf(start, end) <= |buf|
    ensures ok ==> ptr == ptr0 + CountOf(start, end)
    ensures ok ==> forall i :: 0 <= i < NODES ==>
      frequency[i] == if start <= i <= end then buf[ptr0 + i - start] else old(frequency[i])
  {
    ptr, ok := ptr0, true;
    var i := start;
    while i <= end
      invariant start <= i && (start <= end ==> i <= end + 1) && (end < start ==> i == start)
      invariant ok && ptr == ptr0 + (i - start) <= |buf|
      invariant forall k :: 0 <= k < NODES ==>
                frequency[k] == if start <= k < i then buf[ptr0 + k - start] else old(frequency[k])
    {
      if ptr == |buf| {
        return ptr, false;
      }
      frequency[i] := buf[ptr];
      ptr := ptr + 1;
      i := i + 1;
    }
  }

  // What the ranges read so far make of the table,
  ghost predicate TableOf(frequency: seq<int>, done: seq<Range>) {
    && |frequency| == NODES
    && (forall i :: 0 <= i < NODES ==> frequency[i] == Listed(done, |done|, i) && 0 <= frequency[i] <= 255)
    && (forall i :: 256 <= i < NODES ==> frequency[i] == 0)
  }

  // and what is still to be read.
  ghost predicate ReadSoFar(buf: seq<int>, done: seq<Range>, pos: nat) {
    pos <= |buf| && ReadFrom(buf, 0) == After(done, ReadFrom(buf, pos))
  }

  function After(done: seq<Range>,
                 rest: Reading): Reading { if rest.Short? then Short else Read(done + rest.ranges, rest.used) }

  lemma NothingRead(buf: seq<int>)
    ensures ReadSoFar(buf, [], 0)
  {
    if ReadFrom(buf, 0).Read? {
      assert [] + ReadFrom(buf, 0).ranges == ReadFrom(buf, 0).ranges;
    }
  }

  lemma OneMoreListed(was: seq<int>, now: seq<int>, done: seq<Range>, r: Range)
    requires TableOf(was, done) && RangeOk(r) && 0 <= r.start && r.end <= 255 && |now| == NODES
    requires forall k :: 0 <= k < |r.values| ==> 0 <= r.values[k] <= 255
    requires forall i :: 0 <= i < NODES ==> now[i] == if r.start <= i <= r.end then r.values[i - r.start] else was[i]
    ensures TableOf(now, done + [r])
  {
    forall i | 0 <= i < NODES
      ensures now[i] == Listed(done + [r], |done + [r]|, i) && 0 <= now[i] <= 255
    {
      ListedBefore(done, r, i);
    }
  }

  lemma OneMoreRead(buf: seq<int>, done: seq<Range>, pos: nat, r: Range, next: nat)
    requires ReadSoFar(buf, done, pos) && next == pos + 2 + CountOf(r.start, r.end) < |buf|
    requires r.start == buf[pos] && r.end == buf[pos + 1] && r.values == buf[pos + 2..next]
    ensures buf[next] == 0 ==> ReadFrom(buf, 0) == Read(done + [r], next + 1)
    ensures buf[next] != 0 ==> ReadSoFar(buf, done + [r], next)
  {
    var rest := ReadFrom(buf, next);
    assert ReadFrom(buf, pos) == if buf[next] == 0 then Read([r], next + 1) else With(r, rest);
    if rest.Read? {
      assert done + ([r] + rest.ranges) == (done + [r]) + rest.ranges;
    }
  }

  lemma {:induction false} ListedPrefix(a: seq<Range>, b: seq<Range>, n: nat, symbol: int)
    requires n <= |a| && n <= |b| && a[..n] == b[..n]
    ensures Listed(a, n, symbol) == Listed(b, n, symbol)
  {
    if n > 0 {
      assert a[n - 1] == a[..n][n - 1] == b[..n][n - 1] == b[n - 1];
      assert a[..n - 1] == a[..n][..n - 1] && b[..n - 1] == b[..n][..n - 1];
      ListedPrefix(a, b, n - 1, symbol);
    }
  }

  lemma ListedBefore(done: seq<Range>, r: Range, symbol: int)
    ensures Listed(done + [r], |done|, symbol) == Listed(done, |done|, symbol)
  {
    assert (done + [r])[..|done|] == done == done[..|done|];
    ListedPrefix(done + [r], done, |done|, symbol);
  }

  // The ranges of frequencies that a table begins with; false if the data end first, where the
  // source would go on reading. What comes out is what the merging starts from.
  method ReadFrequencies(buf: seq<int>) returns (frequency: array<int>, ptr: nat, ok: bool)
    requires forall k :: 0 <= k < |buf| ==> 0 <= buf[k] <= 255
    ensures fresh(frequency) && frequency.Length == NODES && (ok <==> ReadFrom(buf, 0).Read?)
    ensures ok ==> var r := ReadFrom(buf, 0);
      frequency[..SYMBOLS] == Frequencies(r.ranges) && IsFrequencyTable(Frequencies(r.ranges)) && ptr == Aligned(r.used)
    ensures ok ==> forall i :: SYMBOLS <= i < NODES ==> frequency[i] == 0
  {
    frequency := new int[NODES](i => 0);
    ptr, ok := 2, |buf| >= 2;
    if !ok {
      return;
    }
    var start, end := buf[0], buf[1];
    ghost var done: seq<Range> := [];
    NothingRead(buf);
    while true
      invariant 2 <= ptr <= |buf| && start == buf[ptr - 2] && end == buf[ptr - 1]
      invariant TableOf(frequency[..], done) && ReadSoFar(buf, done, ptr - 2)
      decreases |buf| - ptr
    {
      ghost var was, pos := frequency[..], ptr - 2;
      ptr, ok := ReadRange(buf, frequency, ptr, start, end);
      if !ok || ptr == |buf| {
        return frequency, ptr, false;
      }
      ghost var r := Range(start, end, buf[pos + 2..ptr]);
      OneMoreListed(was, frequency[..], done, r);
      OneMoreRead(buf, done, pos, r, ptr);
      done := done + [r];
      start := buf[ptr];
      ptr := ptr + 1;
      if start == 0 {
        break;
      }
      if ptr == |buf| {
        return frequency, ptr, false;
      }
      end := buf[ptr];
      ptr := ptr + 1;
    }
    frequency[256] := 1;
    assert frequency[..SYMBOLS] == Frequencies(done);
    ptr := (ptr + 3) / 4 * 4;
    ok := true;
  }

  // read_huffman_tables, but for the VLC: the codes are those for the frequencies that the data
  // list, and the rest begins at the next word.
  method ReadHuffmanTables(buf: seq<int>)
      returns (lenTab: array<int>, bitsTab: array<int>, ptr: nat, ok: bool, overflow: bool)
    requires forall k :: 0 <= k < |buf| ==> 0 <= buf[k] <= 255
    ensures !overflow && (ok <==> ReadFrom(buf, 0).Read?)
    ensures ok ==> lenTab.Length == bitsTab.Length == SYMBOLS && ptr == Aligned(ReadFrom(buf, 0).used)
    ensures ok ==> IsFrequencyTable(Frequencies(ReadFrom(buf, 0).ranges))
    ensures ok ==> AreTables(Frequencies(ReadFrom(buf, 0).ranges), lenTab[..], bitsTab[..])
  {
    var frequency;
    frequency, ptr, ok := ReadFrequencies(buf);
    if ok {
      lenTab, bitsTab, overflow := CodeTables(frequency[..SYMBOLS]);
    } else {
      lenTab, bitsTab, overflow := new int[0], new int[0], false;
    }
  }

  // Lengths and codes are those of the Huffman trees; they fit the three 9-bit lookups of the
  // VLC reader, and are a complete prefix code exactly when some byte value is unused.
  ghost predicate AreTables(freq: seq<int>, lens: seq<int>, bits: seq<int>)
    requires IsFrequencyTable(freq)
  {
    && |lens| == |bits| == SYMBOLS
    && (forall s :: 0 <= s < SYMBOLS ==>
            lens[s] == |CodeOf(HuffmanForest(freq), s)| && bits[s] == Value(CodeOf(HuffmanForest(freq), s)))
    && (forall s :: 0 <= s < SYMBOLS ==> 0 <= lens[s] <= 22 <= 3 * 9)
    && (IsPrefixCode(freq, lens, bits) <==> SomeByteUnused(freq))
    && Sum(KraftTerms(freq, lens)) == Pow2(22) * (if SomeByteUnused(freq) then 1 else 2)
  }

  // read_huffman_tables once the frequencies are in. The warning the source prints for a code
  // over 31 bits never comes.
  method CodeTables(freq: seq<int>) returns (lenTab: array<int>, bitsTab: array<int>, overflow: bool)
    requires IsFrequencyTable(freq)
    ensures fresh(lenTab) && fresh(bitsTab) && lenTab.Length == bitsTab.Length == SYMBOLS
    ensures !overflow && AreTables(freq, lenTab[..], bitsTab[..])
  {
    lenTab, bitsTab, overflow := BuildTables(freq);
    ForestIsShallow(freq);
    TablesAreRight(freq, lenTab[..], bitsTab[..]);
  }

  lemma TablesAreRight(freq: seq<int>, lens: seq<int>, bits: seq<int>)
    requires IsFrequencyTable(freq) && |lens| == |bits| == SYMBOLS
    requires forall s :: 0 <= s < SYMBOLS ==>
               lens[s] == |CodeOf(HuffmanForest(freq), s)| && bits[s] == Value(CodeOf(HuffmanForest(freq), s))
    ensures forall s :: 0 <= s < SYMBOLS ==> lens[s] <= 22
    ensures IsPrefixCode(freq, lens, bits) <==> SomeByteUnused(freq)
    ensures Sum(KraftTerms(freq, lens)) == Pow2(22) * (if SomeByteUnused(freq) then 1 else 2)
  {
    forall s | 0 <= s < SYMBOLS
      ensures lens[s] <= 22
    {
      CodeLengthAtMost22(freq, s);
    }
    KraftSum(freq, lens);
    TreesLeft(freq);
    PrefixFreeNumeric(freq, lens, bits);
  }

  lemma PrefixFreeNumeric(freq: seq<int>, lens: seq<int>, bits: seq<int>)
    requires IsFrequencyTable(freq) && |lens| == |bits| == SYMBOLS
    requires forall s :: 0 <= s < SYMBOLS ==>
               lens[s] == |CodeOf(HuffmanForest(freq), s)| && bits[s] == Value(CodeOf(HuffmanForest(freq), s))
    ensures IsPrefixCode(freq, lens, bits) <==> SomeByteUnused(freq)
  {
    var t := HuffmanForest(freq);
    SymbolWeights(freq);
    PrefixFreeIff(freq);
    forall a, b | 0 <= a < SYMBOLS && 0 <= b < SYMBOLS
      ensures Starts(lens[a], bits[a], lens[b], bits[b]) <==> CodeOf(t, a) <= CodeOf(t, b)
    {
      CodeIsBits(t, a);
      CodeIsBits(t, b);
      StartsIsPrefix(CodeOf(t, a), CodeOf(t, b));
    }
  }
}
