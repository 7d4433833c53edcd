// The pruned Viterbi search of adpcm_compress_trellis: what it writes decodes to the state
// it hands back, every node of the frontier stands for a decodable path with that path's
// squared error, and path slots are never shared.
module AdpcmTrellis {
  import opened Adpcm
  import opened Sums

  const FREEZE_INTERVAL: nat := 128

  datatype TrellisPath = TrellisPath(nibble: Nibble, prev: int)

  datatype TrellisNode = TrellisNode(ssd: int, path: int, sample1: int, sample2: int, step: int)

  function StateOf(n: TrellisNode): State { State(n.sample1, n.sample2, n.step) }

  function Square(x: int): int { x * x }

  // Decoding one nibble, which nibbles are tried for a sample, and the error of a decoded sample;
  // the search itself never looks into any of them.
  datatype Step = Step(expand: (State, Nibble) -> State, tries: (State, int, Nibble) -> bool, error: (int, int) -> int)

  function Run(f: Step, s: State, nibbles: seq<Nibble>): State {
    if nibbles == [] then s else f.expand(Run(f, s, nibbles[..|nibbles| - 1]), nibbles[|nibbles| - 1])
  }

  // Each nibble is one that is tried for its sample, in the state the nibbles before it lead to.
  ghost predicate Tried(f: Step, s: State, nibbles: seq<Nibble>, wanted: seq<int>)
    requires |nibbles| == |wanted|
  {
    nibbles == [] ||
    var m := |nibbles| - 1;
    Tried(f, s, nibbles[..m], wanted[..m]) && f.tries(Run(f, s, nibbles[..m]), wanted[m], nibbles[m])
  }

  // Error of decoding nibbles from state s against the wanted samples, added up.
  function TotalError(f: Step, s: State, nibbles: seq<Nibble>, wanted: seq<int>): int
    requires |nibbles| == |wanted|
  {
    if nibbles == [] then 0
    else
      var m := |nibbles| - 1;
      TotalError(f, s, nibbles[..m], wanted[..m]) + f.error(wanted[m], Run(f, s, nibbles).sample1)
  }

  // ---- paths ----

  // len slots can be followed back from slot, at falling numbers.
  ghost predicate Chain(paths: seq<TrellisPath>, slot: int, len: nat)
    decreases len
  {
    len == 0 ||
    (0 <= slot < |paths| && (len >= 2 ==> paths[slot].prev < slot) && Chain(paths, paths[slot].prev, len - 1))
  }

  ghost function Nibbles(paths: seq<TrellisPath>, slot: int, len: nat): (s: seq<Nibble>)
    requires Chain(paths, slot, len)
    ensures |s| == len
    decreases len
  {
    if len == 0 then [] else Nibbles(paths, paths[slot].prev, len - 1) + [paths[slot].nibble]
  }

  // Slots at or above bound may change under a chain that starts below it.
  lemma {:induction false} ChainFrame(paths: seq<TrellisPath>, paths': seq<TrellisPath>, slot: int, len: nat,
                                      bound: int)
    requires Chain(paths, slot, len) && |paths| == |paths'| && (len > 0 ==> slot < bound)
    requires forall k :: 0 <= k < |paths| && k < bound ==> paths[k] == paths'[k]
    ensures Chain(paths', slot, len) && Nibbles(paths', slot, len) == Nibbles(paths, slot, len)
    decreases len
  {
    if len > 0 {
      ChainFrame(paths, paths', paths[slot].prev, len - 1, bound);
    }
  }

  // ---- the frontier as a sequence of nodes ----

  ghost predicate Sorted(front: seq<TrellisNode>) {
    forall a, b :: 0 <= a < b < |front| ==> front[a].ssd <= front[b].ssd
  }

  ghost predicate DistinctSamples(front: seq<TrellisNode>) {
    forall a, b :: 0 <= a < b < |front| ==> front[a].sample1 != front[b].sample1
  }

  ghost predicate DistinctPaths(front: seq<TrellisNode>) {
    forall a, b :: 0 <= a < b < |front| ==> front[a].path != front[b].path
  }

  // These nibbles decode to the node's state, each is one the search tries for its sample, and
  // ssd is their squared error, up to the offset all nodes share.
  ghost predicate StandsFor(f: Step, frozen: State, nibbles: seq<Nibble>, wanted: seq<int>, n: TrellisNode,
                            offset: int) {
    && |nibbles| == |wanted| && StateOf(n) == Run(f, frozen, nibbles) && Tried(f, frozen, nibbles, wanted)
    && n.ssd + offset == TotalError(f, frozen, nibbles, wanted)
  }

  // Node n stands for a path since the last freeze.
  ghost predicate Sound(f: Step, frozen: State, wanted: seq<int>, paths: seq<TrellisPath>, n: TrellisNode,
                        offset: int) {
    Chain(paths, n.path, |wanted|) && StandsFor(f, frozen, Nibbles(paths, n.path, |wanted|), wanted, n, offset)
  }

  ghost predicate AllSound(f: Step, frozen: State, wanted: seq<int>, paths: seq<TrellisPath>, front: seq<TrellisNode>,
                           offset: int, pathn: int)
  {
    && front != [] && Sorted(front)
    && (forall k :: 0 <= k < |front| ==> Sound(f, frozen, wanted, paths, front[k], offset))
    && (|wanted| > 0 ==> DistinctPaths(front) && forall k :: 0 <= k < |front| ==> front[k].path < pathn)
  }

  // ---- inserting one candidate ----

  ghost predicate Rejected(front: seq<TrellisNode>, size: nat, ssd: int, sample1: int)
    requires |front| <= size
  {
    (|front| == size > 0 && ssd >= front[size - 1].ssd) ||
    exists k :: 0 <= k < |front| && front[k].sample1 == sample1
  }

  // First place whose node is heavier than ssd.
  function Place(front: seq<TrellisNode>, ssd: int): (k: nat)
    ensures k <= |front| && (k < |front| ==> ssd < front[k].ssd)
    ensures forall i :: 0 <= i < k ==> front[i].ssd <= ssd
  {
    if front == [] then 0
    else
      var k := Place(front[..|front| - 1], ssd);
      if k < |front| - 1 || ssd < front[|front| - 1].ssd then k else k + 1
  }

  // A full frontier gives up its heaviest node, whose path slot is taken over.
  function Kept(front: seq<TrellisNode>, size: nat): seq<TrellisNode>
    requires |front| <= size
  {
    if |front| == size > 0 then front[..size - 1] else front
  }

  function Slot(front: seq<TrellisNode>, size: nat, pathn: int): int
    requires |front| <= size
  {
    if |front| == size > 0 then front[size - 1].path else pathn
  }

  ghost function Inserted(front: seq<TrellisNode>, size: nat, n: TrellisNode): (r: seq<TrellisNode>)
    requires |front| <= size && size > 0
    ensures |r| <= size
  {
    if Rejected(front, size, n.ssd, n.sample1) then front
    else
      var kept := Kept(front, size);
      var k := Place(kept, n.ssd);
      kept[..k] + [n] + kept[k..]
  }

  // Node n continues node p by the nibble its path slot records.
  ghost predicate Continues(f: Step, sample: int, paths: seq<TrellisPath>, p: TrellisNode, n: TrellisNode)
  {
    && 0 <= n.path < |paths|
    && paths[n.path].prev == p.path
    && StateOf(n) == f.expand(StateOf(p), paths[n.path].nibble) && f.tries(StateOf(p), sample, paths[n.path].nibble)
    && n.ssd == p.ssd + f.error(sample, n.sample1)
  }

  ghost predicate ComesFrom(f: Step, sample: int, paths: seq<TrellisPath>, prev: seq<TrellisNode>, upTo: int,
                            n: TrellisNode)
  {
    exists j :: 0 <= j < |prev| && j <= upTo && Continues(f, sample, paths, prev[j], n)
  }

  // The next frontier while it is being filled from nodes 0..upTo of the previous one.
  ghost predicate Filling(f: Step, sample: int, paths: seq<TrellisPath>, prev: seq<TrellisNode>, upTo: int,
                          front: seq<TrellisNode>, base: int, size: nat)
  {
    && |front| <= size && Sorted(front) && DistinctSamples(front) && DistinctPaths(front)
    && (forall k :: 0 <= k < |front| ==> base <= front[k].path < base + |front|)
    && (forall k :: 0 <= k < |front| ==> ComesFrom(f, sample, paths, prev, upTo, front[k]))
  }

  // What offering a candidate does to a frontier and the path slots, the next free slot being given.
  ghost predicate Offered(front: seq<TrellisNode>, front': seq<TrellisNode>, paths: seq<TrellisPath>,
                          paths': seq<TrellisPath>, size: nat, free: int, n: TrellisNode, step: TrellisPath)
  {
    if |front| > size || size == 0 || Rejected(front, size, n.ssd, n.sample1) then front' == front && paths' == paths
    else
      var slot := Slot(front, size, free);
      && 0 <= slot < |paths|
      && front' == Inserted(front, size, n.(path := slot))
      && paths' == paths[slot := step]
  }

  // Nodes with the sample of n are no heavier.
  ghost predicate NoneHeavier(front: seq<TrellisNode>, n: TrellisNode) {
    forall k :: 0 <= k < |front| && front[k].sample1 == n.sample1 ==> front[k].ssd <= n.ssd
  }

  ghost predicate PathsBelow(front: seq<TrellisNode>, pathn: int) {
    forall k :: 0 <= k < |front| ==> 0 <= front[k].path < pathn
  }

  lemma NotOffered(front: seq<TrellisNode>, paths: seq<TrellisPath>, size: nat, free: int, n: TrellisNode,
                   step: TrellisPath)
    requires |front| <= size && Rejected(front, size, n.ssd, n.sample1)
    ensures Offered(front, front, paths, paths, size, free, n, step)
  {
  }

  // The source's first assert: a candidate that repeats a sample value is never the lighter one.
  lemma RepeatIsNoBetter(f: Step, sample: int, paths: seq<TrellisPath>, prev: seq<TrellisNode>, j: int,
                         front: seq<TrellisNode>, base: int, size: nat, k: int, ssd: int, sample1: int)
    requires Sorted(prev) && 0 <= j < |prev| && Filling(f, sample, paths, prev, j, front, base, size)
    requires ssd == prev[j].ssd + f.error(sample, sample1)
    requires 0 <= k < |front| && front[k].sample1 == sample1
    ensures ssd >= front[k].ssd
  {
    assert ComesFrom(f, sample, paths, prev, j, front[k]);
    var i :| 0 <= i < |prev| && i <= j && Continues(f, sample, paths, prev[i], front[k]);
  }

  lemma InsertKeepsOrder(front: seq<TrellisNode>, size: nat, n: TrellisNode)
    requires |front| <= size && size > 0 && Sorted(front) && DistinctSamples(front)
    ensures Sorted(Inserted(front, size, n)) && DistinctSamples(Inserted(front, size, n))
  {
    if !Rejected(front, size, n.ssd, n.sample1) {
      InsertedElements(front, size, n);
      InsertedSorted(Kept(front, size), Place(Kept(front, size), n.ssd), n, Inserted(front, size, n));
      InsertedDistinct(Kept(front, size), Place(Kept(front, size), n.ssd), n, Inserted(front, size, n));
    }
  }

  ghost predicate IsInserted(kept: seq<TrellisNode>, k: int, n: TrellisNode, r: seq<TrellisNode>) {
    && |r| == |kept| + 1 && 0 <= k <= |kept|
    && forall i {:trigger r[i]} :: 0 <= i < |r| ==>
      r[i] == (if i < k then kept[i] else if i == k then n else kept[i - 1])
  }

  lemma InsertedSorted(kept: seq<TrellisNode>, k: int, n: TrellisNode, r: seq<TrellisNode>)
    requires IsInserted(kept, k, n, r) && Sorted(kept) && k == Place(kept, n.ssd)
    ensures Sorted(r)
  {
    forall a, b | 0 <= a < b < |r|
      ensures r[a].ssd <= r[b].ssd
    {
      var c, d := if a < k then a else a - 1, if b < k then b else b - 1;
      if a != k && b != k {
        assert kept[c].ssd <= kept[d].ssd;
      } else if a == k {
        assert n.ssd <= kept[k].ssd <= kept[d].ssd;
      } else {
        assert kept[c].ssd <= n.ssd;
      }
    }
  }

  lemma InsertedDistinct(kept: seq<TrellisNode>, k: int, n: TrellisNode, r: seq<TrellisNode>)
    requires IsInserted(kept, k, n, r) && DistinctSamples(kept)
    requires forall i :: 0 <= i < |kept| ==> kept[i].sample1 != n.sample1
    ensures DistinctSamples(r)
  {
    forall a, b | 0 <= a < b < |r|
      ensures r[a].sample1 != r[b].sample1
    {
      var c, d := if a < k then a else a - 1, if b < k then b else b - 1;
      if a != k && b != k {
        assert kept[c].sample1 != kept[d].sample1;
      } else if a == k {
        assert kept[d].sample1 != n.sample1;
      } else {
        assert kept[c].sample1 != n.sample1;
      }
    }
  }

  // Where each node of the new frontier comes from.
  lemma InsertedElements(front: seq<TrellisNode>, size: nat, n: TrellisNode)
    requires |front| <= size && size > 0 && !Rejected(front, size, n.ssd, n.sample1)
    ensures var r := Inserted(front, size, n);
            var k := Place(Kept(front, size), n.ssd);
            && |r| == (if |front| == size then size else |front| + 1)
            && k < |r| && r[k] == n
            && forall i :: 0 <= i < |r| && i != k ==> r[i] == Kept(front, size)[if i < k then i else i - 1]
  {
  }

  lemma KeptPaths(front: seq<TrellisNode>, size: nat, base: int)
    requires |front| <= size && size > 0 && DistinctPaths(front)
    requires forall k :: 0 <= k < |front| ==> base <= front[k].path < base + |front|
    ensures var s := Slot(front, size, base + |front|);
            && base <= s < base + |Kept(front, size)| + 1
            && forall i :: 0 <= i < |Kept(front, size)| ==> Kept(front, size)[i].path != s
  {
  }

  lemma InsertKeepsPaths(front: seq<TrellisNode>, size: nat, base: int, n: TrellisNode)
    requires |front| <= size && size > 0 && DistinctPaths(front)
    requires forall k :: 0 <= k < |front| ==> base <= front[k].path < base + |front|
    requires !Rejected(front, size, n.ssd, n.sample1) && n.path == Slot(front, size, base + |front|)
    ensures var r := Inserted(front, size, n);
            DistinctPaths(r) && forall i :: 0 <= i < |r| ==> base <= r[i].path < base + |r|
  {
    InsertedElements(front, size, n);
    KeptPaths(front, size, base);
    var r, kept := Inserted(front, size, n), Kept(front, size);
    var k := Place(kept, n.ssd);
    forall a, b | 0 <= a < b < |r|
      ensures r[a].path != r[b].path
    {
      if a != k && b != k {
        assert kept[if a < k then a else a - 1].path != kept[if b < k then b else b - 1].path;
      }
    }
  }

  lemma InsertKeepsOrigins(f: Step, sample: int, paths: seq<TrellisPath>, paths': seq<TrellisPath>,
                           prev: seq<TrellisNode>, j: int, front: seq<TrellisNode>, size: nat, n: TrellisNode)
    requires 0 <= j < |prev| && |front| <= size && size > 0
    requires forall k :: 0 <= k < |front| ==> ComesFrom(f, sample, paths, prev, j, front[k])
    requires !Rejected(front, size, n.ssd, n.sample1)
    requires forall i :: 0 <= i < |Kept(front, size)| ==> Kept(front, size)[i].path != n.path
    requires |paths'| == |paths| && forall i :: 0 <= i < |paths| && i != n.path ==> paths'[i] == paths[i]
    requires Continues(f, sample, paths', prev[j], n)
    ensures forall i :: 0 <= i < |Inserted(front, size, n)| ==>
              ComesFrom(f, sample, paths', prev, j, Inserted(front, size, n)[i])
  {
    InsertedElements(front, size, n);
    var r, kept := Inserted(front, size, n), Kept(front, size);
    var k := Place(kept, n.ssd);
    forall i | 0 <= i < |r|
      ensures ComesFrom(f, sample, paths', prev, j, r[i])
    {
      if i != k {
        var q := if i < k then i else i - 1;
        assert r[i] == kept[q] == front[q];
        var m :| 0 <= m < |prev| && m <= j && Continues(f, sample, paths, prev[m], front[q]);
        assert Continues(f, sample, paths', prev[m], r[i]);
      }
    }
  }

  lemma InsertKeepsFilling(f: Step, sample: int, paths: seq<TrellisPath>, paths': seq<TrellisPath>,
                           prev: seq<TrellisNode>, j: int, front: seq<TrellisNode>, base: int, size: nat,
                           n: TrellisNode)
    requires 0 <= j < |prev| && size > 0 && Filling(f, sample, paths, prev, j, front, base, size)
    requires !Rejected(front, size, n.ssd, n.sample1)
    requires n.path == Slot(front, size, base + |front|) && 0 <= n.path < |paths'| == |paths|
    requires forall i :: 0 <= i < |paths| && i != n.path ==> paths'[i] == paths[i]
    requires Continues(f, sample, paths', prev[j], n)
    ensures Filling(f, sample, paths', prev, j, Inserted(front, size, n), base, size)
  {
    InsertKeepsOrder(front, size, n);
    InsertKeepsPaths(front, size, base, n);
    KeptPaths(front, size, base);
    InsertKeepsOrigins(f, sample, paths, paths', prev, j, front, size, n);
  }

  // ---- nothing that is offered is missed ----

  // A node has this sample at no greater error, or the frontier is full of nodes no heavier.
  ghost predicate Covered(front: seq<TrellisNode>, size: nat, sample1: int, ssd: int) {
    (exists k :: 0 <= k < |front| && front[k].sample1 == sample1 && front[k].ssd <= ssd)
    || (|front| == size > 0 && front[size - 1].ssd <= ssd)
  }

  ghost predicate CoversAll(front: seq<TrellisNode>, front': seq<TrellisNode>, size: nat) {
    forall x, e {:trigger Covered(front', size, x, e)} :: Covered(front, size, x, e) ==> Covered(front', size, x, e)
  }

  lemma OfferCovers(front: seq<TrellisNode>, front': seq<TrellisNode>, paths: seq<TrellisPath>,
                    paths': seq<TrellisPath>, size: nat, free: int, n: TrellisNode, step: TrellisPath)
    requires |front| <= size && size > 0 && Sorted(front) && DistinctSamples(front) && NoneHeavier(front, n)
    requires Offered(front, front', paths, paths', size, free, n, step)
    ensures Covered(front', size, n.sample1, n.ssd) && CoversAll(front, front', size)
  {
    if !Rejected(front, size, n.ssd, n.sample1) {
      var m := n.(path := Slot(front, size, free));
      InsertedElements(front, size, m);
      var k := Place(Kept(front, size), m.ssd);
      assert front'[k].sample1 == n.sample1;
      forall x, e | Covered(front, size, x, e)
        ensures Covered(front', size, x, e)
      {
        InsertedCovers(front, size, m, x, e);
      }
    }
  }

  lemma InsertedCovers(front: seq<TrellisNode>, size: nat, n: TrellisNode, x: int, e: int)
    requires |front| <= size && size > 0 && Sorted(front) && !Rejected(front, size, n.ssd, n.sample1)
    requires Covered(front, size, x, e)
    ensures Covered(Inserted(front, size, n), size, x, e)
  {
    InsertedElements(front, size, n);
    var r, kept := Inserted(front, size, n), Kept(front, size);
    var k := Place(kept, n.ssd);
    if i :| 0 <= i < |kept| && front[i].sample1 == x && front[i].ssd <= e {
      assert r[if i < k then i else i + 1] == kept[i] == front[i];
    } else {
      assert |front| == size && front[size - 1].ssd <= e;
      assert r[size - 1] == if k == size - 1 then n else kept[size - 2];
    }
  }

  // ---- one step keeps every node sound ----

  lemma {:induction false} StepKeepsSound(f: Step, frozen: State, wanted: seq<int>, sample: int,
                                          paths: seq<TrellisPath>, paths': seq<TrellisPath>, prev: seq<TrellisNode>,
                                          front: seq<TrellisNode>, offset: int, base: int, size: nat)
    requires |paths| == |paths'| && 0 <= base
    requires AllSound(f, frozen, wanted, paths, prev, offset, base)
    requires Filling(f, sample, paths', prev, |prev| - 1, front, base, size) && front != []
    requires forall k :: 0 <= k < |paths| && k < base ==> paths[k] == paths'[k]
    ensures AllSound(f, frozen, wanted + [sample], paths', front, offset, base + |front|)
  {
    var wanted' := wanted + [sample];
    forall k | 0 <= k < |front|
      ensures Sound(f, frozen, wanted', paths', front[k], offset)
    {
      var n := front[k];
      assert ComesFrom(f, sample, paths', prev, |prev| - 1, n);
      var j :| 0 <= j < |prev| && Continues(f, sample, paths', prev[j], n);
      NodeStaysSound(f, frozen, wanted, sample, paths, paths', prev[j], n, offset, base);
    }
  }

  lemma NodeStaysSound(f: Step, frozen: State, wanted: seq<int>, sample: int, paths: seq<TrellisPath>,
                       paths': seq<TrellisPath>, p: TrellisNode, n: TrellisNode, offset: int, base: int)
    requires |paths| == |paths'| && 0 <= base <= n.path
    requires Sound(f, frozen, wanted, paths, p, offset)
    requires |wanted| > 0 ==> p.path < base
    requires Continues(f, sample, paths', p, n)
    requires forall k :: 0 <= k < |paths| && k < base ==> paths[k] == paths'[k]
    ensures Sound(f, frozen, wanted + [sample], paths', n, offset)
  {
    var len := |wanted|;
    var nibbles, x := Nibbles(paths, p.path, len), paths'[n.path].nibble;
    assert Chain(paths', n.path, len + 1) && Nibbles(paths', n.path, len + 1) == nibbles + [x] by {
      ChainFrame(paths, paths', p.path, len, base);
      ChainExtends(paths', n.path, p.path, len);
    }
    OneMoreStands(f, frozen, nibbles, wanted, p, n, x, sample, offset);
  }

  lemma OneMoreStands(f: Step, frozen: State, nibbles: seq<Nibble>, wanted: seq<int>, p: TrellisNode, n: TrellisNode,
                      x: Nibble, sample: int, offset: int)
    requires StandsFor(f, frozen, nibbles, wanted, p, offset)
    requires StateOf(n) == f.expand(StateOf(p), x) && f.tries(StateOf(p), sample, x)
    requires n.ssd == p.ssd + f.error(sample, n.sample1)
    ensures StandsFor(f, frozen, nibbles + [x], wanted + [sample], n, offset)
  {
    RunAppend(f, frozen, nibbles, x, wanted, sample);
  }

  lemma ChainExtends(paths: seq<TrellisPath>, slot: int, prev: int, len: nat)
    requires 0 <= slot < |paths| && paths[slot].prev == prev && (len > 0 ==> prev < slot)
    requires Chain(paths, prev, len)
    ensures Chain(paths, slot, len + 1)
    ensures Nibbles(paths, slot, len + 1) == Nibbles(paths, prev, len) + [paths[slot].nibble]
  {
  }

  lemma RunAppend(f: Step, s: State, nibbles: seq<Nibble>, n: Nibble, wanted: seq<int>, w: int)
    requires |nibbles| == |wanted|
    ensures Run(f, s, nibbles + [n]) == f.expand(Run(f, s, nibbles), n)
    ensures TotalError(f, s, nibbles + [n], wanted + [w]) ==
            TotalError(f, s, nibbles, wanted) + f.error(w, f.expand(Run(f, s, nibbles), n).sample1)
    ensures Tried(f, s, nibbles + [n], wanted + [w])
            <==> Tried(f, s, nibbles, wanted) && f.tries(Run(f, s, nibbles), w, n)
  {
    assert (nibbles + [n])[..|nibbles|] == nibbles && (wanted + [w])[..|wanted|] == wanted;
  }

  // ---- nodep_buf and node_buf ----

  lemma PlaceIsFirst(front: seq<TrellisNode>, ssd: int, k: nat)
    requires k <= |front| && (k < |front| ==> ssd < front[k].ssd)
    requires forall i :: 0 <= i < k ==> front[i].ssd <= ssd
    ensures Place(front, ssd) == k
  {
  }

  ghost predicate Pointers(p: seq<int>, live: nat) {
    && live <= |p|
    && (forall k :: 0 <= k < live ==> 0 <= p[k] < |p|)
    && (forall k :: live <= k < |p| ==> p[k] == -1)
    && (forall a, b :: 0 <= a < b < live ==> p[a] != p[b])
  }

  lemma ShiftedPointers(p: seq<int>, live: nat, k: nat, u: int)
    requires Pointers(p, live) && k < |p| && k <= live && 0 <= u < |p|
    requires if live < |p| then forall i :: 0 <= i < live ==> p[i] != u else u == p[|p| - 1]
    ensures var q := p[..k] + [u] + p[k..|p| - 1];
            Pointers(q, if live < |p| then live + 1 else live)
  {
    var q := p[..k] + [u] + p[k..|p| - 1];
    assert forall i :: 0 <= i < |q| ==> q[i] == if i < k then p[i] else if i == k then u else p[i - 1];
    var m := if live < |p| then live + 1 else live;
    forall a, b | 0 <= a < b < m
      ensures q[a] != q[b]
    {
      if a != k && b != k {
        assert p[if a < k then a else a - 1] != p[if b < k then b else b - 1];
      } else if live == |p| {
        var c := if a != k then a else b;
        assert p[if c < k then c else c - 1] != p[|p| - 1];
      }
    }
  }

  lemma ShiftedBelow(p: seq<int>, live: nat, k: nat, u: int, t: int)
    requires Pointers(p, live) && k < |p| && k <= live && u < t
    requires forall i :: 0 <= i < live ==> p[i] < t
    ensures var q := p[..k] + [u] + p[k..|p| - 1];
            forall i :: 0 <= i < |q| && i < live + 1 ==> q[i] < t
  {
    var q := p[..k] + [u] + p[k..|p| - 1];
    assert forall i :: 0 <= i < |q| ==> q[i] == if i < k then p[i] else if i == k then u else p[i - 1];
  }

  ghost function Deref(p: seq<int>, b: seq<TrellisNode>, live: nat): (s: seq<TrellisNode>)
    requires Pointers(p, live) && |p| == |b|
    ensures |s| == live && forall k :: 0 <= k < live ==> s[k] == b[p[k]]
  {
    seq(live, k requires 0 <= k < live => b[p[k]])
  }

  lemma DerefShifted(p: seq<int>, b: seq<TrellisNode>, live: nat, k: nat, u: int, n: TrellisNode,
                     kept: seq<TrellisNode>)
    requires Pointers(p, live) && |p| == |b| && k < |p| && k <= live && 0 <= u < |p|
    requires if live < |p| then forall i :: 0 <= i < live ==> p[i] != u else u == p[|p| - 1]
    requires k <= |kept| == (if live < |p| then live else live - 1)
    requires forall i :: 0 <= i < |kept| ==> kept[i] == b[p[i]]
    ensures var q := p[..k] + [u] + p[k..|p| - 1];
            Pointers(q, |kept| + 1) && Deref(q, b[u := n], |kept| + 1) == kept[..k] + [n] + kept[k..]
  {
    ShiftedPointers(p, live, k, u);
    var q := p[..k] + [u] + p[k..|p| - 1];
    var r := kept[..k] + [n] + kept[k..];
    var d := Deref(q, b[u := n], |kept| + 1);
    forall i | 0 <= i < |kept| + 1
      ensures d[i] == r[i]
    {
      if i != k {
        var j := if i < k then i else i - 1;
        assert q[i] == p[j] && r[i] == kept[j];
        assert p[j] != u;
      }
    }
  }

  // Writing node u and shifting its pointer in is inserting into the sequence of nodes.
  lemma DerefInserted(p: seq<int>, b: seq<TrellisNode>, live: nat, k: nat, u: int, n: TrellisNode,
                      front: seq<TrellisNode>, size: nat)
    requires Pointers(p, live) && |p| == |b| == size && k < |p| && k <= live && 0 <= u < |p|
    requires if live < |p| then forall i :: 0 <= i < live ==> p[i] != u else u == p[|p| - 1]
    requires front == Deref(p, b, live) && !Rejected(front, size, n.ssd, n.sample1)
    requires k == Place(Kept(front, size), n.ssd)
    ensures var q := p[..k] + [u] + p[k..|p| - 1];
            var m := if live < |p| then live + 1 else live;
            Pointers(q, m) && Deref(q, b[u := n], m) == Inserted(front, size, n)
  {
    DerefShifted(p, b, live, k, u, n, Kept(front, size));
  }

  // One row of node pointers with the nodes they point at; -1 is the null pointer.
  class Frontier {
    const size: nat
    const nodep: array<int>
    const buf: array<TrellisNode>
    ghost var live: nat  // how many pointers are set; they come first

    ghost predicate Valid()
      reads this, nodep, buf
    {
      nodep.Length == size && buf.Length == size && Pointers(nodep[..], live)
    }

    ghost function Nodes(): (s: seq<TrellisNode>)
      requires Valid()
      reads this, nodep, buf
      ensures |s| == live && forall k :: 0 <= k < live ==> s[k] == buf[nodep[k]]
    {
      Deref(nodep[..], buf[..], live)
    }

    // The pointers in use are the first t nodes, as while the row is being filled.
    ghost predicate Tight(t: int)
      requires Valid()
      reads this, nodep, buf
    {
      live == t && forall k :: 0 <= k < live ==> nodep[k] < t
    }

    constructor (n: nat)
      ensures Valid() && live == 0 && size == n && fresh(nodep) && fresh(buf)
    {
      size := n;
      nodep := new int[n](_ => -1);
      buf := new TrellisNode[n](_ => TrellisNode(0, 0, 0, 0, 0));
      live := 0;
    }

    // The frontier of one node that the search starts from.
    method Start(s: State)
      requires Valid() && size > 0
      modifies this, nodep, buf
      ensures Valid() && Nodes() == [TrellisNode(0, 0, s.sample1, s.sample2, s.step)]
    {
      Clear();
      buf[0] := TrellisNode(0, 0, s.sample1, s.sample2, s.step);
      nodep[0] := 0;
      live := 1;
    }

    // memset(nodes_next, 0, ...)
    method Clear()
      requires Valid()
      modifies this, nodep
      ensures Valid() && live == 0
    {
      forall k | 0 <= k < size {
        nodep[k] := -1;
      }
      live := 0;
    }

    // memset(nodes + 1, 0, ...)
    method KillOthers()
      requires Valid() && live > 0
      modifies this, nodep
      ensures Valid() && Nodes() == old(Nodes())[..1]
    {
      forall k | 1 <= k < size {
        nodep[k] := -1;
      }
      live := 1;
    }

    // Puts node u at place k, closing up over the last pointer (memmove).
    method ShiftIn(k: nat, u: int)
      requires Valid() && k < size && k <= live && 0 <= u < size
      requires if live < size then forall i :: 0 <= i < live ==> nodep[i] != u else u == nodep[size - 1]
      modifies this, nodep
      ensures Valid() && live == if old(live) < size then old(live) + 1 else size
      ensures nodep[..] == old(nodep[..k]) + [u] + old(nodep[k..size - 1])
    {
      ghost var p := nodep[..];
      ShiftedPointers(p, live, k, u);
      forall x | k < x < size {
        nodep[x] := nodep[x - 1];
      }
      nodep[k] := u;
      assert nodep[..] == p[..k] + [u] + p[k..size - 1];
      if live < size {
        live := live + 1;
      }
    }

    method IsNull(k: nat) returns (r: bool)
      requires Valid() && k < size
      ensures r <==> k >= live
    {
      r := nodep[k] == -1;
    }

    // STORE_NODE: drop the candidate, or put it in order and record how it was reached.
    method Offer(paths: array<TrellisPath>, t0: nat, pathn0: nat, n: TrellisNode, nibble: Nibble, prevPath: int)
        returns (t: nat, pathn: nat)
      requires Valid() && Tight(t0) && size > 0 && Sorted(Nodes())
      requires pathn0 + (size - t0) <= paths.Length && PathsBelow(Nodes(), pathn0) && NoneHeavier(Nodes(), n)
      modifies this, nodep, buf, paths
      ensures Valid() && Tight(t) && t - t0 == pathn - pathn0 && t0 <= t <= size
      ensures Offered(old(Nodes()), Nodes(), old(paths[..]), paths[..], size, pathn0, n, TrellisPath(nibble, prevPath))
    {
      t, pathn := t0, pathn0;
      ghost var front := Nodes();
      var room := IsNull(size - 1);
      if !room && n.ssd >= buf[nodep[size - 1]].ssd {
        assert n.ssd >= front[size - 1].ssd;
        NotOffered(front, paths[..], size, pathn0, n, TrellisPath(nibble, prevPath));
        return;
      }
      var repeat := FindRepeat(n);
      if repeat {
        NotOffered(front, paths[..], size, pathn0, n, TrellisPath(nibble, prevPath));
        return;
      }
      var k := FindPlace(n.ssd);
      t, pathn := Commit(k, paths, t0, pathn0, n, nibble, prevPath);
    }

    // Is there already a node with this sample value? It is then no heavier.
    method FindRepeat(n: TrellisNode) returns (found: bool)
      requires Valid()
      requires forall k :: 0 <= k < live && Nodes()[k].sample1 == n.sample1 ==> n.ssd >= Nodes()[k].ssd
      ensures found <==> exists k :: 0 <= k < live && Nodes()[k].sample1 == n.sample1
    {
      var k := 0;
      while k < size && nodep[k] != -1
        invariant 0 <= k <= live
        invariant forall i :: 0 <= i < k ==> Nodes()[i].sample1 != n.sample1
      {
        if n.sample1 == buf[nodep[k]].sample1 {
          assert Nodes()[k].sample1 == n.sample1;
          assert n.ssd >= buf[nodep[k]].ssd;
          assert Nodes()[k].sample1 == n.sample1;
          return true;
        }
        k := k + 1;
      }
      return false;
    }

    method FindPlace(ssd: int) returns (k: nat)
      requires Valid() && size > 0
      requires live == size ==> ssd < Nodes()[size - 1].ssd
      ensures k < size && k <= live && k == Place(Kept(Nodes(), size), ssd)
    {
      k := 0;
      while nodep[k] != -1 && ssd >= buf[nodep[k]].ssd
        invariant 0 <= k <= live && k < size
        invariant forall i :: 0 <= i < k ==> Nodes()[i].ssd <= ssd
        decreases size - k
      {
        assert Nodes()[k].ssd <= ssd;
        k := k + 1;
      }
      PlaceIsFirst(Kept(Nodes(), size), ssd, k);
    }

    method Commit(k: nat, paths: array<TrellisPath>, t0: nat, pathn0: nat, n: TrellisNode, nibble: Nibble,
                  prevPath: int)
        returns (t: nat, pathn: nat)
      requires Valid() && Tight(t0) && size > 0
      requires pathn0 + (size - t0) <= paths.Length
      requires forall k :: 0 <= k < live ==> 0 <= Nodes()[k].path < pathn0
      requires !Rejected(Nodes(), size, n.ssd, n.sample1)
      requires k < size && k <= live && k == Place(Kept(Nodes(), size), n.ssd)
      modifies this, nodep, buf, paths
      ensures Valid() && Tight(t) && t - t0 == pathn - pathn0 && t0 <= t <= size
      ensures Offered(old(Nodes()), Nodes(), old(paths[..]), paths[..], size, pathn0, n, TrellisPath(nibble, prevPath))
    {
      var u, path;
      u, path, t, pathn := PickNode(paths.Length, t0, pathn0);
      WriteNode(k, paths, t, u, n.(path := path), nibble, prevPath);
    }

    // A fresh node with a fresh path slot, or the node and slot of the heaviest one.
    method PickNode(maxPaths: nat, t0: nat, pathn0: nat) returns (u: int, path: int, t: nat, pathn: nat)
      requires Valid() && Tight(t0) && size > 0 && pathn0 + (size - t0) <= maxPaths
      requires forall k :: 0 <= k < live ==> 0 <= Nodes()[k].path < pathn0
      ensures t - t0 == pathn - pathn0 && t0 <= t <= size
      ensures t == if live < size then t0 + 1 else t0
      ensures 0 <= u < t && if live < size then forall i :: 0 <= i < live ==> nodep[i] != u else u == nodep[size - 1]
      ensures 0 <= path < maxPaths && path == Slot(Nodes(), size, pathn0)
    {
      t, pathn := t0, pathn0;
      u := nodep[size - 1];
      if u == -1 {
        assert pathn < maxPaths;
        u := t;
        t := t + 1;
        path := pathn;
        pathn := pathn + 1;
      } else {
        path := buf[u].path;
        assert Nodes()[size - 1].path == path;
      }
    }

    method WriteNode(k: nat, paths: array<TrellisPath>, t: nat, u: int, n: TrellisNode, nibble: Nibble, prevPath: int)
      requires Valid() && size > 0 && t <= size
      requires t == if live < size then live + 1 else live
      requires forall i :: 0 <= i < live ==> nodep[i] < t
      requires 0 <= u < t && if live < size then forall i :: 0 <= i < live ==> nodep[i] != u else u == nodep[size - 1]
      requires 0 <= n.path < paths.Length
      requires !Rejected(Nodes(), size, n.ssd, n.sample1)
      requires k < size && k <= live && k == Place(Kept(Nodes(), size), n.ssd)
      modifies this, nodep, buf, paths
      ensures Valid() && Tight(t) && Nodes() == Inserted(old(Nodes()), size, n)
      ensures paths[..] == old(paths[..])[n.path := TrellisPath(nibble, prevPath)]
    {
      ghost var p := nodep[..];
      DerefInserted(p, buf[..], live, k, u, n, Nodes(), size);
      ShiftedBelow(p, live, k, u, t);
      buf[u] := n;
      paths[n.path] := TrellisPath(nibble, prevPath);
      assert nodep[..] == p;
      ShiftIn(k, u);
      assert nodep[..] == p[..k] + [u] + p[k..size - 1];
    }
  }

  // ---- candidates ----

  // nidx counts signed steps; IMA and Yamaha tell -0 from +0.
  function NibbleOf(v: Codec, nidx: int): Nibble
    requires -8 <= nidx <= 7
  {
    if v.Ms? then (if nidx < 0 then nidx + 16 else nidx) else if nidx < 0 then 7 - nidx else nidx
  }

  // dec_sample before clamping.
  function DecSample(v: Codec, s: State, nidx: int): int
    requires v.ImaWav? ==> 0 <= s.step <= 88
    requires -8 <= nidx <= 7
  {
    match v
    case Ms(_, _) => MsPredictor(v, s.sample1, s.sample2) + nidx * s.step
    case ImaWav => s.sample1 + Quot(StepOf(s.step) * YAMAHA_DIFFLOOKUP[NibbleOf(v, nidx)], 8)
    case Yamaha => s.sample1 + Quot(s.step * YAMAHA_DIFFLOOKUP[NibbleOf(v, nidx)], 8)
  }

  function NextStep(v: Codec, step: int, nibble: Nibble): int {
    match v
    case Ms(_, _) => Max(16, ADAPTATION_TABLE[nibble] * step / 256)
    case ImaWav => Clip(step + INDEX_TABLE[nibble], 0, 88)
    case Yamaha => Clip(step * YAMAHA_INDEXSCALE[nibble] / 256, 127, 24567)
  }

  // What the search believes a nibble does is what the decoder does with it.
  lemma CandidateDecodes(v: Codec, s: State, nidx: int)
    requires StateOk(v, s) && -8 <= nidx <= 7
    ensures var n := NibbleOf(v, nidx);
            Expand(v, s, n) == State(ClampToShort(DecSample(v, s, nidx)), s.sample1, NextStep(v, s.step, n))
  {
    if v.ImaWav? {
      ImaFormulasAgree(s.sample1, s.step, NibbleOf(v, nidx));
    }
  }

  // The signed steps a nibble stands for.
  function IndexOf(v: Codec, n: Nibble): (nidx: int)
    ensures -8 <= nidx <= 7 && NibbleOf(v, nidx) == n
  {
    if v.Ms? then Signed(n) else if n >= 8 then 7 - n else n
  }

  // The exact quotient, towards zero.
  function Exact(v: Codec, s: State, sample: int): int
    requires StateOk(v, s)
  {
    if v.Ms? then Quot(sample - MsPredictor(v, s.sample1, s.sample2), s.step)
    else Quot((sample - s.sample1) * 4, if v.ImaWav? then StepOf(s.step) else s.step)
  }

  // The steps tried: those around the quotient, and of the zeros both.
  function Least(v: Codec, div: int): int {
    if v.Ms? then Clip(div, -8, 6) else if Clip(div, -7, 6) <= 0 then Clip(div, -7, 6) - 1 else Clip(div, -7, 6)
  }

  function Most(v: Codec, div: int): int {
    if v.Ms? then Clip(div, -7, 7) else if Clip(div, -6, 7) < 0 then Clip(div, -6, 7) - 1 else Clip(div, -6, 7)
  }

  ghost predicate InReach(v: Codec, s: State, sample: int, nidx: int)
    requires StateOk(v, s)
  {
    Least(v, Exact(v, s, sample) - 1) <= nidx <= Most(v, Exact(v, s, sample) + 1)
  }

  ghost function Transition(v: Codec): Step {
    Step((s: State, n: Nibble) => if StateOk(v, s) then Expand(v, s, n) else s,
         (s: State, sample: int, n: Nibble) => StateOk(v, s) && InReach(v, s, sample, IndexOf(v, n)),
         (sample: int, got: int) => Square(sample - got))
  }

  lemma WithinOne(v: Codec, div: int, range: int)
    requires 0 <= range <= 1
    ensures Least(v, div - 1) <= Least(v, div - range) && Most(v, div + range) <= Most(v, div + 1)
    ensures -8 <= Least(v, div - range) <= Most(v, div + range) <= 7
  {
  }

  // A nibble is to be tried: with the heavier half of the nodes, only the quotient itself.
  ghost predicate Due(v: Codec, s: State, sample: int, wide: bool, n: Nibble)
    requires StateOk(v, s)
  {
    var range := if wide then 1 else 0;
    Least(v, Exact(v, s, sample) - range) <= IndexOf(v, n) <= Most(v, Exact(v, s, sample) + range)
  }

  // ---- the wide range has the nearest nibble ----

  // How far, squared, a nibble decodes from the sample.
  function Miss(v: Codec, s: State, sample: int, n: Nibble): int
    requires StateOk(v, s)
  {
    Square(sample - Expand(v, s, n).sample1)
  }

  // What a step adds to the predictor, times eight for IMA and Yamaha.
  function StepSize(v: Codec, s: State): (size: int)
    requires StateOk(v, s)
    ensures size > 0
  {
    if v.ImaWav? then StepOf(s.step) else s.step
  }

  lemma DecSampleIs(v: Codec, s: State, nidx: int)
    requires StateOk(v, s) && -8 <= nidx <= 7
    ensures !v.Ms? ==> DecSample(v, s, nidx) == s.sample1 + Quot((2 * nidx + 1) * StepSize(v, s), 8)
  {
    if !v.Ms? {
      assert YAMAHA_DIFFLOOKUP[NibbleOf(v, nidx)] == 2 * nidx + 1;
      assert StepSize(v, s) * (2 * nidx + 1) == (2 * nidx + 1) * StepSize(v, s);
    }
  }

  lemma TimesRises(a: int, b: int, size: int)
    requires a <= b && size > 0
    ensures a * size <= b * size
  {
    assert (b - a) * size >= 0;
  }

  lemma QuotRises(x: int, y: int)
    requires x <= y
    ensures Quot(x, 8) <= Quot(y, 8)
  {
  }

  lemma DecSampleRises(v: Codec, s: State, a: int, b: int)
    requires StateOk(v, s) && -8 <= a <= b <= 7
    ensures DecSample(v, s, a) <= DecSample(v, s, b)
  {
    DecSampleIs(v, s, a);
    DecSampleIs(v, s, b);
    if v.Ms? {
      TimesRises(a, b, s.step);
    } else {
      TimesRises(2 * a + 1, 2 * b + 1, StepSize(v, s));
      QuotRises((2 * a + 1) * StepSize(v, s), (2 * b + 1) * StepSize(v, s));
    }
  }

  lemma DivBracket(x: nat, size: int, q: int)
    requires size > 0 && q == x / size
    ensures 0 <= q && q * size <= x < q * size + size
  {
  }

  lemma QuotBracket(a: int, size: int, q: int)
    requires size > 0 && q == Quot(a, size)
    ensures if a >= 0 then 0 <= q && q * size <= a < q * size + size else q <= 0 && q * size - size < a <= q * size
  {
    if a >= 0 {
      DivBracket(a, size, q);
    } else {
      DivBracket(-a, size, -q);
      assert (-q) * size == -(q * size);
    }
  }

  lemma QuotAgainst(x: int, d: int)
    ensures x <= 8 * d ==> Quot(x, 8) <= d
    ensures 8 * d <= x ==> d <= Quot(x, 8)
  {
  }

  // A step below the quotient, in eighths, against the difference.
  lemma BelowQuotient(d: int, size: int, div: int, lo: int)
    requires size > 0 && div == Quot(d * 4, size) && (if div >= 2 then lo <= div - 1 else lo <= div - 2 && lo < 0)
    ensures (2 * lo + 1) * size <= 8 * d
  {
    QuotBracket(d * 4, size, div);
    var u := div * size;
    if div >= 2 {
      TimesRises(2 * lo + 1, 2 * div - 1, size);
      assert (2 * div - 1) * size == 2 * u - size;
    } else if d >= 0 {
      TimesRises(2 * lo + 1, -1, size);
    } else {
      TimesRises(2 * lo + 1, 2 * div - 3, size);
      assert (2 * div - 3) * size == 2 * u - 3 * size;
    }
  }

  lemma AboveQuotient(d: int, size: int, div: int, hi: int)
    requires size > 0 && div == Quot(d * 4, size) && (if div <= -2 then hi >= div else hi >= div + 1 && hi >= 0)
    ensures 8 * d <= (2 * hi + 1) * size
  {
    QuotBracket(d * 4, size, div);
    var u := div * size;
    if div <= -2 {
      TimesRises(2 * div + 1, 2 * hi + 1, size);
      assert (2 * div + 1) * size == 2 * u + size;
    } else if d < 0 {
      TimesRises(1, 2 * hi + 1, size);
    } else {
      TimesRises(2 * div + 3, 2 * hi + 1, size);
      assert (2 * div + 3) * size == 2 * u + 3 * size;
    }
  }

  lemma WithinMultiples(d: int, size: int, div: int, lo: int, hi: int)
    requires size > 0 && div == Quot(d, size) && lo <= div - 1 && div + 1 <= hi
    ensures lo * size <= d <= hi * size
  {
    QuotBracket(d, size, div);
    TimesRises(lo, div - 1, size);
    TimesRises(div + 1, hi, size);
    assert (div - 1) * size == div * size - size && (div + 1) * size == div * size + size;
  }

  // The least step tried does not overshoot the sample, unless it is the least there is.
  lemma LowEnd(v: Codec, s: State, sample: int, lo: int)
    requires StateOk(v, s) && lo == Least(v, Exact(v, s, sample) - 1) && -8 < lo <= 7
    ensures DecSample(v, s, lo) <= sample
  {
    var size, div := StepSize(v, s), Exact(v, s, sample);
    DecSampleIs(v, s, lo);
    if v.Ms? {
      WithinMultiples(sample - MsPredictor(v, s.sample1, s.sample2), size, div, lo, div + 1);
    } else {
      BelowQuotient(sample - s.sample1, size, div, lo);
      QuotAgainst((2 * lo + 1) * size, sample - s.sample1);
    }
  }

  // Nor does the greatest fall short of it.
  lemma HighEnd(v: Codec, s: State, sample: int, hi: int)
    requires StateOk(v, s) && hi == Most(v, Exact(v, s, sample) + 1) && -8 <= hi < 7
    ensures DecSample(v, s, hi) >= sample
  {
    var size, div := StepSize(v, s), Exact(v, s, sample);
    DecSampleIs(v, s, hi);
    if v.Ms? {
      WithinMultiples(sample - MsPredictor(v, s.sample1, s.sample2), size, div, div - 1, hi);
    } else {
      AboveQuotient(sample - s.sample1, size, div, hi);
      QuotAgainst((2 * hi + 1) * size, sample - s.sample1);
    }
  }

  // Of two steps on one side of the sample the one between is no farther from it, clamped or not.
  lemma BetweenIsNearer(v: Codec, s: State, sample: int, i: int, j: int)
    requires StateOk(v, s) && -32768 <= sample <= 32767 && -8 <= i <= 7 && -8 <= j <= 7
    requires var a, b := DecSample(v, s, i), DecSample(v, s, j); b <= a <= sample || sample <= a <= b
    ensures Miss(v, s, sample, NibbleOf(v, i)) <= Miss(v, s, sample, NibbleOf(v, j))
  {
    CandidateDecodes(v, s, i);
    CandidateDecodes(v, s, j);
    SquareRises(sample - ClampToShort(DecSample(v, s, i)), sample - ClampToShort(DecSample(v, s, j)));
  }

  lemma LowIsNearer(v: Codec, s: State, sample: int, lo: int, j: int)
    requires StateOk(v, s) && -32768 <= sample <= 32767
    requires lo == Least(v, Exact(v, s, sample) - 1) && -8 <= j < lo <= 7
    ensures Miss(v, s, sample, NibbleOf(v, lo)) <= Miss(v, s, sample, NibbleOf(v, j))
  {
    LowEnd(v, s, sample, lo);
    DecSampleRises(v, s, j, lo);
    BetweenIsNearer(v, s, sample, lo, j);
  }

  lemma HighIsNearer(v: Codec, s: State, sample: int, hi: int, j: int)
    requires StateOk(v, s) && -32768 <= sample <= 32767
    requires hi == Most(v, Exact(v, s, sample) + 1) && -8 <= hi < j <= 7
    ensures Miss(v, s, sample, NibbleOf(v, hi)) <= Miss(v, s, sample, NibbleOf(v, j))
  {
    HighEnd(v, s, sample, hi);
    DecSampleRises(v, s, hi, j);
    BetweenIsNearer(v, s, sample, hi, j);
  }

  // For each of the sixteen nibbles there is one to be tried that decodes at least as near to
  // the sample, saturation and all.
  lemma NearestIsDue(v: Codec, s: State, sample: int, y: Nibble) returns (x: Nibble)
    requires StateOk(v, s) && -32768 <= sample <= 32767
    ensures Due(v, s, sample, true, x)
    ensures Miss(v, s, sample, x) <= Miss(v, s, sample, y)
  {
    var div, j := Exact(v, s, sample), IndexOf(v, y);
    var lo, hi := Least(v, div - 1), Most(v, div + 1);
    WithinOne(v, div, 1);
    x := y;
    if j < lo {
      LowIsNearer(v, s, sample, lo, j);
      x := NibbleOf(v, lo);
      NibbleHasIndex(v, lo);
    } else if hi < j {
      HighIsNearer(v, s, sample, hi, j);
      x := NibbleOf(v, hi);
      NibbleHasIndex(v, hi);
    }
  }

  lemma NibbleHasIndex(v: Codec, nidx: int)
    requires -8 <= nidx <= 7
    ensures IndexOf(v, NibbleOf(v, nidx)) == nidx
  {
  }

  lemma SquareRises(a: int, b: int)
    requires 0 <= a <= b || b <= a <= 0
    ensures Square(a) <= Square(b)
  {
    if a >= 0 {
      assert a * a <= a * b <= b * b;
    } else {
      assert (-a) * (-a) <= (-a) * (-b) <= (-b) * (-b);
    }
  }

  // ---- what a frontier must have ----

  // The frontier has what a nibble would lead to from node p, or nothing heavier.
  ghost predicate HasOffer(v: Codec, p: TrellisNode, sample: int, n: Nibble, front: seq<TrellisNode>, size: nat)
    requires StateOk(v, StateOf(p))
  {
    Covered(front, size, Expand(v, StateOf(p), n).sample1, p.ssd + Miss(v, StateOf(p), sample, n))
  }

  ghost predicate HasNode(v: Codec, p: TrellisNode, sample: int, wide: bool, front: seq<TrellisNode>, size: nat)
    requires StateOk(v, StateOf(p))
  {
    forall n: Nibble :: Due(v, StateOf(p), sample, wide, n) ==> HasOffer(v, p, sample, n, front, size)
  }

  // It has what every nibble to be tried leads to from each of the first nodes before it.
  ghost predicate Complete(v: Codec, prev: seq<TrellisNode>, upTo: int, sample: int, front: seq<TrellisNode>,
                           size: nat)
    requires AllStatesOk(v, prev)
  {
    forall j {:trigger prev[j]} :: 0 <= j < |prev| && j < upTo ==>
      HasNode(v, prev[j], sample, j < size / 2, front, size)
  }

  lemma OneMoreNode(v: Codec, prev: seq<TrellisNode>, upTo: nat, sample: int, front: seq<TrellisNode>,
                    front': seq<TrellisNode>, size: nat)
    requires AllStatesOk(v, prev) && Complete(v, prev, upTo, sample, front, size) && CoversAll(front, front', size)
    requires upTo < |prev| && HasNode(v, prev[upTo], sample, upTo < size / 2, front', size)
    ensures Complete(v, prev, upTo + 1, sample, front', size)
  {
    forall j | 0 <= j < upTo
      ensures HasNode(v, prev[j], sample, j < size / 2, front', size)
    {
      forall n: Nibble | Due(v, StateOf(prev[j]), sample, j < size / 2, n)
        ensures HasOffer(v, prev[j], sample, n, front', size)
      {
        assert HasOffer(v, prev[j], sample, n, front, size);
      }
    }
  }

  // The range of steps tried around the exact quotient: one less and one more at most.
  method CandidateRange(v: Codec, s: State, sample: int, range: int) returns (nmin: int, nmax: int)
    requires StateOk(v, s) && 0 <= range <= 1
    ensures -8 <= nmin <= nmax <= 7
    ensures nmin == Least(v, Exact(v, s, sample) - range) && nmax == Most(v, Exact(v, s, sample) + range)
    ensures forall nidx :: nmin <= nidx <= nmax ==> InReach(v, s, sample, nidx)
  {
    WithinOne(v, Exact(v, s, sample), range);
    if v.Ms? {
      var div := Quot(sample - MsPredictor(v, s.sample1, s.sample2), s.step);
      nmin, nmax := Clip(div - range, -8, 6), Clip(div + range, -7, 7);
    } else {
      var table := if v.ImaWav? then StepOf(s.step) else s.step;
      var div := Quot((sample - s.sample1) * 4, table);
      nmin, nmax := Clip(div - range, -7, 6), Clip(div + range, -6, 7);
      if nmin <= 0 { nmin := nmin - 1; }
      if nmax < 0 { nmax := nmax - 1; }
    }
  }

  ghost predicate AllStatesOk(v: Codec, front: seq<TrellisNode>) {
    forall k :: 0 <= k < |front| ==> StateOk(v, StateOf(front[k]))
  }

  lemma FillingStates(v: Codec, sample: int, paths: seq<TrellisPath>, prev: seq<TrellisNode>, upTo: int,
                      front: seq<TrellisNode>, base: int, size: nat)
    requires AllStatesOk(v, prev) && Filling(Transition(v), sample, paths, prev, upTo, front, base, size)
    ensures AllStatesOk(v, front)
  {
    forall k | 0 <= k < |front|
      ensures StateOk(v, StateOf(front[k]))
    {
      assert ComesFrom(Transition(v), sample, paths, prev, upTo, front[k]);
    }
  }

  lemma FillingMonotone(f: Step, sample: int, paths: seq<TrellisPath>, prev: seq<TrellisNode>, upTo: int, upTo': int,
                        front: seq<TrellisNode>, base: int, size: nat)
    requires Filling(f, sample, paths, prev, upTo, front, base, size) && upTo <= upTo'
    ensures Filling(f, sample, paths, prev, upTo', front, base, size)
  {
    forall k | 0 <= k < |front|
      ensures ComesFrom(f, sample, paths, prev, upTo', front[k])
    {
      assert ComesFrom(f, sample, paths, prev, upTo, front[k]);
    }
  }

  lemma OfferIsSafe(f: Step, sample: int, paths: seq<TrellisPath>, prev: seq<TrellisNode>, j: int,
                    front: seq<TrellisNode>, base: int, size: nat, n: TrellisNode, free: int)
    requires Sorted(prev) && 0 <= j < |prev| && Filling(f, sample, paths, prev, j, front, base, size) && 0 <= base
    requires free == base + |front|
    requires n.ssd == prev[j].ssd + f.error(sample, n.sample1)
    ensures NoneHeavier(front, n) && PathsBelow(front, free)
  {
    forall k | 0 <= k < |front| && front[k].sample1 == n.sample1
      ensures n.ssd >= front[k].ssd
    {
      RepeatIsNoBetter(f, sample, paths, prev, j, front, base, size, k, n.ssd, n.sample1);
    }
  }

  lemma OfferKeepsFilling(f: Step, sample: int, paths: seq<TrellisPath>, paths': seq<TrellisPath>,
                          prev: seq<TrellisNode>, j: int, front: seq<TrellisNode>, front': seq<TrellisNode>, base: nat,
                          size: nat, n: TrellisNode, nibble: Nibble)
    requires Sorted(prev) && 0 <= j < |prev| && size > 0 && Filling(f, sample, paths, prev, j, front, base, size)
    requires base + size <= |paths|
    requires n.ssd == prev[j].ssd + f.error(sample, n.sample1) && StateOf(n) == f.expand(StateOf(prev[j]), nibble)
    requires f.tries(StateOf(prev[j]), sample, nibble)
    requires Offered(front, front', paths, paths', size, base + |front|, n, TrellisPath(nibble, prev[j].path))
    ensures Filling(f, sample, paths', prev, j, front', base, size) && front' != []
    ensures |paths'| == |paths| && paths'[..base] == paths[..base]
  {
    if !Rejected(front, size, n.ssd, n.sample1) {
      var slot := Slot(front, size, base + |front|);
      var m := n.(path := slot);
      KeptPaths(front, size, base);
      InsertedElements(front, size, m);
      assert Continues(f, sample, paths', prev[j], m);
      InsertKeepsFilling(f, sample, paths, paths', prev, j, front, base, size, m);
    }
  }

  // One candidate of node p: compute its sample and error and offer it to the next frontier.
  method StoreCandidate(v: Codec, p: TrellisNode, sample: int, nidx: int, next: Frontier, paths: array<TrellisPath>,
                        t0: nat, pathn0: nat, ghost prev: seq<TrellisNode>, ghost j: int, ghost base: nat)
      returns (t: nat, pathn: nat)
    requires StateOk(v, StateOf(p)) && -8 <= nidx <= 7 && InReach(v, StateOf(p), sample, nidx)
    requires next.Valid() && next.Tight(t0) && next.size > 0 && pathn0 == base + t0 && base + next.size <= paths.Length
    requires 0 <= j < |prev| && prev[j] == p && Sorted(prev)
    requires Filling(Transition(v), sample, paths[..], prev, j, next.Nodes(), base, next.size)
    modifies next, next.nodep, next.buf, paths
    ensures next.Valid() && next.Tight(t) && pathn == base + t && next.live > 0
    ensures Filling(Transition(v), sample, paths[..], prev, j, next.Nodes(), base, next.size)
    ensures HasOffer(v, p, sample, NibbleOf(v, nidx), next.Nodes(), next.size)
    ensures CoversAll(old(next.Nodes()), next.Nodes(), next.size)
    ensures paths[..][..base] == old(paths[..])[..base]
  {
    ghost var front, before := next.Nodes(), paths[..];
    var nibble, n := MakeCandidate(v, p, sample, nidx);
    OfferIsSafe(Transition(v), sample, before, prev, j, front, base, next.size, n, pathn0);
    t, pathn := next.Offer(paths, t0, pathn0, n, nibble, p.path);
    ghost var front', after := next.Nodes(), paths[..];
    CandidateKept(v, p, sample, before, after, prev, j, front, front', base, next.size, n, nibble, pathn0);
  }

  lemma CandidateKept(v: Codec, p: TrellisNode, sample: int, paths: seq<TrellisPath>, paths': seq<TrellisPath>,
                      prev: seq<TrellisNode>, j: int, front: seq<TrellisNode>, front': seq<TrellisNode>, base: nat,
                      size: nat, n: TrellisNode, nibble: Nibble, free: int)
    requires StateOk(v, StateOf(p)) && StateOf(n) == Expand(v, StateOf(p), nibble)
    requires Transition(v).tries(StateOf(p), sample, nibble)
    requires n.ssd == p.ssd + Transition(v).error(sample, n.sample1) && NoneHeavier(front, n)
    requires Sorted(prev) && 0 <= j < |prev| && prev[j] == p && size > 0 && base + size <= |paths|
    requires Filling(Transition(v), sample, paths, prev, j, front, base, size)
    requires Offered(front, front', paths, paths', size, free, n, TrellisPath(nibble, p.path)) && free == base + |front|
    ensures Filling(Transition(v), sample, paths', prev, j, front', base, size) && front' != []
    ensures HasOffer(v, p, sample, nibble, front', size) && CoversAll(front, front', size)
    ensures |paths'| == |paths| && paths'[..base] == paths[..base]
  {
    OfferKeepsFilling(Transition(v), sample, paths, paths', prev, j, front, front', base, size, n, nibble);
    OfferStands(v, p, sample, nibble, n, front, front', paths, paths', size, free);
  }

  lemma OfferStands(v: Codec, p: TrellisNode, sample: int, nibble: Nibble, n: TrellisNode, front: seq<TrellisNode>,
                    front': seq<TrellisNode>, paths: seq<TrellisPath>, paths': seq<TrellisPath>, size: nat, free: int)
    requires StateOk(v, StateOf(p)) && StateOf(n) == Expand(v, StateOf(p), nibble)
    requires n.ssd == p.ssd + Transition(v).error(sample, n.sample1) && NoneHeavier(front, n)
    requires |front| <= size && size > 0 && Sorted(front) && DistinctSamples(front)
    requires Offered(front, front', paths, paths', size, free, n, TrellisPath(nibble, p.path))
    ensures HasOffer(v, p, sample, nibble, front', size) && CoversAll(front, front', size)
  {
    OfferCovers(front, front', paths, paths', size, free, n, TrellisPath(nibble, p.path));
  }

  lemma CandidateIsTried(v: Codec, s: State, sample: int, nidx: int)
    requires StateOk(v, s) && -8 <= nidx <= 7 && InReach(v, s, sample, nidx)
    ensures Transition(v).tries(s, sample, NibbleOf(v, nidx))
  {
    NibbleHasIndex(v, nidx);
  }

  method MakeCandidate(v: Codec, p: TrellisNode, sample: int, nidx: int) returns (nibble: Nibble, n: TrellisNode)
    requires StateOk(v, StateOf(p)) && -8 <= nidx <= 7 && InReach(v, StateOf(p), sample, nidx)
    ensures StateOf(n) == Expand(v, StateOf(p), nibble) && Transition(v).tries(StateOf(p), sample, nibble)
    ensures nibble == NibbleOf(v, nidx) && IndexOf(v, nibble) == nidx
    ensures n.ssd == p.ssd + Transition(v).error(sample, n.sample1)
  {
    nibble := NibbleOf(v, nidx);
    var decSample := ClampToShort(DecSample(v, StateOf(p), nidx));
    var d := sample - decSample;
    n := TrellisNode(p.ssd + d * d, 0, decSample, p.sample1, NextStep(v, p.step, nibble));
    CandidateDecodes(v, StateOf(p), nidx);
    CandidateIsTried(v, StateOf(p), sample, nidx);
    assert Transition(v).error(sample, decSample) == Square(d) == d * d;
  }

  ghost predicate TriedUpTo(v: Codec, p: TrellisNode, sample: int, nmin: int, nidx: int, front: seq<TrellisNode>,
                            size: nat)
    requires StateOk(v, StateOf(p))
  {
    forall n: Nibble :: nmin <= IndexOf(v, n) < nidx ==> HasOffer(v, p, sample, n, front, size)
  }

  lemma OneMoreTried(v: Codec, p: TrellisNode, sample: int, nmin: int, nidx: int, front: seq<TrellisNode>,
                     front': seq<TrellisNode>, size: nat)
    requires StateOk(v, StateOf(p)) && -8 <= nidx <= 7 && TriedUpTo(v, p, sample, nmin, nidx, front, size)
    requires CoversAll(front, front', size) && HasOffer(v, p, sample, NibbleOf(v, nidx), front', size)
    ensures TriedUpTo(v, p, sample, nmin, nidx + 1, front', size)
  {
    forall n: Nibble | nmin <= IndexOf(v, n) < nidx + 1
      ensures HasOffer(v, p, sample, n, front', size)
    {
      if IndexOf(v, n) < nidx {
        assert HasOffer(v, p, sample, n, front, size);
      } else {
        assert NibbleOf(v, nidx) == n;
      }
    }
  }

  // All candidates of node j.
  method ExpandNode(v: Codec, p: TrellisNode, sample: int, j: nat, next: Frontier, paths: array<TrellisPath>, t0: nat,
                    pathn0: nat, ghost prev: seq<TrellisNode>, ghost base: nat)
      returns (t: nat, pathn: nat)
    requires StateOk(v, StateOf(p))
    requires next.Valid() && next.Tight(t0) && next.size > 0 && pathn0 == base + t0 && base + next.size <= paths.Length
    requires j < |prev| && prev[j] == p && Sorted(prev)
    requires Filling(Transition(v), sample, paths[..], prev, j - 1, next.Nodes(), base, next.size)
    modifies next, next.nodep, next.buf, paths
    ensures next.Valid() && next.Tight(t) && pathn == base + t && next.live > 0
    ensures Filling(Transition(v), sample, paths[..], prev, j, next.Nodes(), base, next.size)
    ensures HasNode(v, p, sample, j < next.size / 2, next.Nodes(), next.size)
    ensures CoversAll(old(next.Nodes()), next.Nodes(), next.size)
    ensures paths[..][..base] == old(paths[..])[..base]
  {
    t, pathn := t0, pathn0;
    // higher j have higher ssd already, so fewer candidates of theirs are tried
    var range := if j < next.size / 2 then 1 else 0;
    var nmin, nmax := CandidateRange(v, StateOf(p), sample, range);
    FillingMonotone(Transition(v), sample, paths[..], prev, j - 1, j, next.Nodes(), base, next.size);
    for nidx := nmin to nmax + 1
      invariant next.Valid() && next.Tight(t) && pathn == base + t && (nidx > nmin ==> next.live > 0)
      invariant Filling(Transition(v), sample, paths[..], prev, j, next.Nodes(), base, next.size)
      invariant TriedUpTo(v, p, sample, nmin, nidx, next.Nodes(), next.size)
      invariant CoversAll(old(next.Nodes()), next.Nodes(), next.size)
      invariant paths[..][..base] == old(paths[..])[..base]
    {
      ghost var front := next.Nodes();
      t, pathn := StoreCandidate(v, p, sample, nidx, next, paths, t, pathn, prev, j, base);
      OneMoreTried(v, p, sample, nmin, nidx, front, next.Nodes(), next.size);
    }
  }

  ghost predicate Apart(a: Frontier, b: Frontier) {
    a != b && a.nodep != b.nodep && a.buf != b.buf && a.size == b.size
  }

  // One sample: the next frontier is filled from every live node in turn.
  method FillNext(v: Codec, sample: int, nodes: Frontier, next: Frontier, paths: array<TrellisPath>, base: nat)
      returns (pathn: nat)
    requires Apart(nodes, next) && nodes.Valid() && next.Valid() && nodes.live > 0 && nodes.size > 0
    requires Sorted(nodes.Nodes()) && AllStatesOk(v, nodes.Nodes()) && base + nodes.size <= paths.Length
    modifies next, next.nodep, next.buf, paths
    ensures nodes.Valid() && nodes.Nodes() == old(nodes.Nodes())
    ensures next.Valid() && next.live > 0 && pathn == base + next.live
    ensures Filling(Transition(v), sample, paths[..], nodes.Nodes(), nodes.live - 1, next.Nodes(), base, next.size)
    ensures Complete(v, nodes.Nodes(), nodes.live, sample, next.Nodes(), next.size)
    ensures paths[..][..base] == old(paths[..])[..base]
  {
    ghost var prev := nodes.Nodes();
    next.Clear();
    var t := 0;
    pathn := base;
    var j := 0;
    while j < nodes.size && nodes.nodep[j] != -1
      invariant 0 <= j <= nodes.live && nodes.Valid() && nodes.Nodes() == prev
      invariant next.Valid() && next.Tight(t) && pathn == base + t && (j > 0 ==> next.live > 0)
      invariant Filling(Transition(v), sample, paths[..], prev, j - 1, next.Nodes(), base, next.size)
      invariant Complete(v, prev, j, sample, next.Nodes(), next.size)
      invariant paths[..][..base] == old(paths[..])[..base]
      decreases nodes.size - j
    {
      var p := nodes.buf[nodes.nodep[j]];
      assert p == prev[j];
      ghost var front := next.Nodes();
      t, pathn := ExpandNode(v, p, sample, j, next, paths, t, pathn, prev, base);
      OneMoreNode(v, prev, j, sample, front, next.Nodes(), next.size);
      j := j + 1;
    }
    assert j == nodes.live;
  }

  // ---- the best node ----

  // Where a path has led, and its squared error.
  datatype Rung = Rung(state: State, error: int)

  // No nibble after a leads to less than b has.
  ghost predicate NoNibbleBetter(v: Codec, a: Rung, sample: int, b: Rung)
    requires StateOk(v, a.state)
  {
    forall n: Nibble :: b.error <= a.error + Miss(v, a.state, sample, n)
  }

  // The best of a complete frontier is no worse than any of the sixteen nibbles after the best
  // node before.
  lemma BestIsNoWorse(v: Codec, prev: seq<TrellisNode>, sample: int, front: seq<TrellisNode>, size: nat, offset: int)
    requires AllStatesOk(v, prev) && prev != [] && size >= 2 && -32768 <= sample <= 32767
    requires front != [] && |front| <= size && Sorted(front) && Complete(v, prev, |prev|, sample, front, size)
    ensures NoNibbleBetter(v, Rung(StateOf(prev[0]), prev[0].ssd + offset), sample,
                           Rung(StateOf(front[0]), front[0].ssd + offset))
  {
    var p := prev[0];
    forall y: Nibble
      ensures front[0].ssd + offset <= p.ssd + offset + Miss(v, StateOf(p), sample, y)
    {
      var n := NearestIsDue(v, StateOf(p), sample, y);
      assert HasNode(v, p, sample, 0 < size / 2, front, size);
      assert HasOffer(v, p, sample, n, front, size);
    }
  }

  ghost predicate Reached(v: Codec, init: State, wanted: seq<int>, r: Rung) {
    StateOk(v, r.state) && exists nibbles: seq<Nibble> :: Leads(v, init, nibbles, wanted, r)
  }

  // These nibbles lead there, each one that the search tries.
  ghost predicate Leads(v: Codec, init: State, nibbles: seq<Nibble>, wanted: seq<int>, r: Rung) {
    && |nibbles| == |wanted| && Run(Transition(v), init, nibbles) == r.state
    && Tried(Transition(v), init, nibbles, wanted) && TotalError(Transition(v), init, nibbles, wanted) == r.error
  }

  // From sample to sample, up to the n-th, the search has a path, and the next has no greater
  // error than any one nibble would add to it.
  ghost predicate Ladder(v: Codec, init: State, wanted: seq<int>, n: int, rungs: seq<Rung>) {
    && 0 <= n <= |wanted| && |rungs| == n + 1 && rungs[0] == Rung(init, 0)
    && (forall i {:trigger rungs[i]} :: 0 <= i <= n ==> Reached(v, init, wanted[..i], rungs[i]))
    && forall i {:trigger Rises(v, wanted, rungs, i)} :: 0 <= i < n ==> Rises(v, wanted, rungs, i)
  }

  ghost predicate Rises(v: Codec, wanted: seq<int>, rungs: seq<Rung>, i: int) {
    && 0 <= i < |wanted| && i + 1 < |rungs| && StateOk(v, rungs[i].state)
    && NoNibbleBetter(v, rungs[i], wanted[i], rungs[i + 1])
  }

  lemma LadderStart(v: Codec, init: State, wanted: seq<int>)
    requires StateOk(v, init)
    ensures Ladder(v, init, wanted, 0, [Rung(init, 0)])
  {
    assert wanted[..0] == [] && Leads(v, init, [], [], Rung(init, 0));
  }

  lemma LadderGrows(v: Codec, init: State, wanted: seq<int>, n: nat, rungs: seq<Rung>, r: Rung)
    requires n < |wanted| && Ladder(v, init, wanted, n, rungs) && Reached(v, init, wanted[..n + 1], r)
    requires StateOk(v, rungs[n].state) && NoNibbleBetter(v, rungs[n], wanted[n], r)
    ensures Ladder(v, init, wanted, n + 1, rungs + [r])
  {
    var more := rungs + [r];
    forall i | 0 <= i <= n
      ensures more[i] == rungs[i]
    {
    }
    forall i | 0 <= i < n + 1
      ensures Rises(v, wanted, more, i)
    {
      assert i < n ==> Rises(v, wanted, rungs, i);
    }
  }

  // Of a single sample: no nibble is nearer than the one written.
  lemma SingleIsNearest(v: Codec, init: State, w: int, n: Nibble, rungs: seq<Rung>, y: Nibble)
    requires StateOk(v, init) && Ladder(v, init, [w], 1, rungs)
    requires rungs[1].error == TotalError(Transition(v), init, [n], [w])
    ensures Miss(v, init, w, n) <= Miss(v, init, w, y)
  {
    assert Rises(v, [w], rungs, 0) && [w][0] == w;
    FirstRung(v, init, w, n, rungs[1], y);
  }

  lemma FirstRung(v: Codec, init: State, w: int, n: Nibble, b: Rung, y: Nibble)
    requires StateOk(v, init) && NoNibbleBetter(v, Rung(init, 0), w, b)
    requires b.error == TotalError(Transition(v), init, [n], [w])
    ensures Miss(v, init, w, n) <= Miss(v, init, w, y)
  {
    OneError(v, init, n, w);
    assert b.error <= 0 + Miss(v, init, w, y);
  }

  lemma OneError(v: Codec, s: State, n: Nibble, w: int)
    requires StateOk(v, s)
    ensures TotalError(Transition(v), s, [n], [w]) == Miss(v, s, w, n)
  {
    SingleError(Transition(v), s, n, w);
  }

  lemma SingleError(f: Step, s: State, n: Nibble, w: int)
    ensures TotalError(f, s, [n], [w]) == f.error(w, f.expand(s, n).sample1)
  {
    RunAppend(f, s, [], n, [], w);
    assert [] + [n] == [n] && [] + [w] == [w];
  }

  lemma {:induction false} ErrorConcat(f: Step, s: State, a: seq<Nibble>, b: seq<Nibble>, w: seq<int>, x: seq<int>)
    requires |a| == |w| && |b| == |x|
    ensures TotalError(f, s, a + b, w + x) == TotalError(f, s, a, w) + TotalError(f, Run(f, s, a), b, x)
  {
    if b == [] {
      assert a + b == a && w + x == w;
    } else {
      var m := |b| - 1;
      ErrorConcat(f, s, a, b[..m], w, x[..m]);
      RunConcat(f, s, a, b);
      assert a + b == (a + b[..m]) + [b[m]] && w + x == (w + x[..m]) + [x[m]];
      RunAppend(f, s, a + b[..m], b[m], w + x[..m], x[m]);
    }
  }

  // ---- keeping errors small ----

  function Lowered(front: seq<TrellisNode>, d: int): (r: seq<TrellisNode>)
    ensures |r| == |front|
    ensures forall k :: 0 <= k < |front| ==> r[k] == front[k].(ssd := front[k].ssd - d)
  {
    seq(|front|, k requires 0 <= k < |front| => front[k].(ssd := front[k].ssd - d))
  }

  lemma LoweredSound(f: Step, frozen: State, wanted: seq<int>, paths: seq<TrellisPath>, front: seq<TrellisNode>,
                     offset: int, pathn: int, d: int)
    requires AllSound(f, frozen, wanted, paths, front, offset, pathn)
    ensures AllSound(f, frozen, wanted, paths, Lowered(front, d), offset + d, pathn)
  {
    var r := Lowered(front, d);
    forall k | 0 <= k < |r|
      ensures Sound(f, frozen, wanted, paths, r[k], offset + d)
    {
      assert Sound(f, frozen, wanted, paths, front[k], offset);
    }
  }

  // Subtracts the least error from all once it exceeds 2^28.
  method PreventOverflow(nodes: Frontier) returns (ghost d: int)
    requires nodes.Valid() && nodes.live > 0
    modifies nodes.buf
    ensures nodes.Valid() && nodes.Nodes() == Lowered(old(nodes.Nodes()), d)
    ensures d == if old(nodes.Nodes())[0].ssd > 0x1000_0000 then old(nodes.Nodes())[0].ssd else 0
  {
    ghost var front := nodes.Nodes();
    var first := nodes.buf[nodes.nodep[0]];
    assert first == front[0];
    d := 0;
    if first.ssd > 0x1000_0000 {
      d := first.ssd;
      var j := 1;
      while j < nodes.size && nodes.nodep[j] != -1
        invariant 1 <= j <= nodes.live && nodes.Valid()
        invariant forall k :: 0 <= k < nodes.live ==>
                    nodes.Nodes()[k] == if 1 <= k < j then front[k].(ssd := front[k].ssd - first.ssd) else front[k]
        decreases nodes.size - j
      {
        var u := nodes.nodep[j];
        assert nodes.Nodes()[j] == front[j];
        nodes.buf[u] := nodes.buf[u].(ssd := nodes.buf[u].ssd - first.ssd);
        j := j + 1;
      }
      nodes.buf[nodes.nodep[0]] := first.(ssd := 0);
    }
  }

  // ---- writing nibbles out ----

  // Follows prev back from slot and writes the nibbles to dst[from..to].
  method TraceBack(paths: array<TrellisPath>, slot: int, dst: array<Nibble>, from: nat, to: nat)
    requires from <= to <= dst.Length && Chain(paths[..], slot, to - from)
    modifies dst
    ensures dst[from..to] == Nibbles(paths[..], slot, to - from)
    ensures dst[..from] == old(dst[..from]) && dst[to..] == old(dst[to..])
  {
    ghost var before, whole := dst[..], Nibbles(paths[..], slot, to - from);
    WriteBack(paths, slot, dst, from, to, whole);
    SlicesWritten(before, dst[..], from, to, whole);
    assert dst[from..to] == dst[..][from..to] && dst[..from] == dst[..][..from] && dst[to..] == dst[..][to..];
  }

  method WriteBack(paths: array<TrellisPath>, slot: int, dst: array<Nibble>, from: nat, to: nat,
                   ghost whole: seq<Nibble>)
    requires from <= to <= dst.Length && Chain(paths[..], slot, to - from)
    requires whole == Nibbles(paths[..], slot, to - from)
    modifies dst
    ensures |whole| == to - from && forall i :: from <= i < to ==> dst[i] == whole[i - from]
    ensures forall i :: 0 <= i < dst.Length && !(from <= i < to) ==> dst[i] == old(dst[i])
  {
    ghost var ps := paths[..];
    var p, k := slot, to;
    while k > from
      invariant from <= k <= to && Chain(ps, p, k - from)
      invariant Nibbles(ps, p, k - from) == whole[..k - from]
      invariant forall i :: k <= i < to ==> dst[i] == whole[i - from]
      invariant forall i :: 0 <= i < dst.Length && !(k <= i < to) ==> dst[i] == old(dst[i])
    {
      LastNibble(ps, p, k - from);
      var node := paths[p];
      assert node == ps[p];
      k := k - 1;
      dst[k] := node.nibble;
      p := node.prev;
    }
  }

  lemma SlicesWritten(before: seq<Nibble>, after: seq<Nibble>, from: nat, to: nat, whole: seq<Nibble>)
    requires from <= to <= |before| == |after| && |whole| == to - from
    requires forall i :: from <= i < to ==> after[i] == whole[i - from]
    requires forall i :: 0 <= i < |after| && !(from <= i < to) ==> after[i] == before[i]
    ensures after[from..to] == whole && after[..from] == before[..from] && after[to..] == before[to..]
  {
  }

  lemma LastNibble(paths: seq<TrellisPath>, slot: int, len: nat)
    requires len > 0 && Chain(paths, slot, len)
    ensures 0 <= slot < |paths| && Chain(paths, paths[slot].prev, len - 1)
    ensures Nibbles(paths, slot, len)[..len - 1] == Nibbles(paths, paths[slot].prev, len - 1)
    ensures Nibbles(paths, slot, len)[len - 1] == paths[slot].nibble
  {
  }

  // ---- the search ----

  ghost predicate NoWorse(v: Codec, p: TrellisNode, offset: int, sample: int, n: TrellisNode, offset': int)
    requires StateOk(v, StateOf(p))
  {
    NoNibbleBetter(v, Rung(StateOf(p), p.ssd + offset), sample, Rung(StateOf(n), n.ssd + offset'))
  }

  // One sample of the search: every node of the new frontier is again sound, and its best is no
  // worse than any nibble after the best before.
  method OneSample(v: Codec, sample: int, nodes: Frontier, next: Frontier, paths: array<TrellisPath>, base: nat,
                   ghost frozen: State, ghost wanted: seq<int>, ghost offset: int)
      returns (pathn: nat, ghost offset': int)
    requires Apart(nodes, next) && nodes.Valid() && next.Valid() && nodes.size >= 2 && -32768 <= sample <= 32767
    requires base + nodes.size <= paths.Length && AllStatesOk(v, nodes.Nodes())
    requires AllSound(Transition(v), frozen, wanted, paths[..], nodes.Nodes(), offset, base)
    modifies next, next.nodep, next.buf, paths
    ensures nodes.Valid() && next.Valid() && pathn <= base + next.size
    ensures AllSound(Transition(v), frozen, wanted + [sample], paths[..], next.Nodes(), offset', pathn)
    ensures AllStatesOk(v, next.Nodes()) && NoWorse(v, old(nodes.Nodes())[0], offset, sample, next.Nodes()[0], offset')
  {
    ghost var before, prev := paths[..], nodes.Nodes();
    pathn := FillNext(v, sample, nodes, next, paths, base);
    offset' := Settle(v, sample, next, before, paths[..], prev, base, frozen, wanted, offset);
  }

  // The new frontier, its errors brought down if they have grown.
  method Settle(v: Codec, sample: int, next: Frontier, ghost before: seq<TrellisPath>, ghost after: seq<TrellisPath>,
                ghost prev: seq<TrellisNode>, ghost base: nat, ghost frozen: State, ghost wanted: seq<int>,
                ghost offset: int)
      returns (ghost offset': int)
    requires next.Valid() && next.live > 0 && base <= |before| == |after| && before[..base] == after[..base]
    requires AllSound(Transition(v), frozen, wanted, before, prev, offset, base) && AllStatesOk(v, prev)
    requires Filling(Transition(v), sample, after, prev, |prev| - 1, next.Nodes(), base, next.size)
    requires next.size >= 2 && -32768 <= sample <= 32767 && Complete(v, prev, |prev|, sample, next.Nodes(), next.size)
    modifies next, next.buf
    ensures next.Valid() && next.live == old(next.live)
    ensures AllSound(Transition(v), frozen, wanted + [sample], after, next.Nodes(), offset', base + next.live)
    ensures AllStatesOk(v, next.Nodes()) && NoWorse(v, prev[0], offset, sample, next.Nodes()[0], offset')
  {
    ghost var front := next.Nodes();
    BestIsNoWorse(v, prev, sample, front, next.size, offset);
    ghost var d := PreventOverflow(next);
    SampleSound(v, frozen, wanted, sample, before, after, prev, front, offset, base, next.size, d);
    offset' := offset + d;
  }

  lemma SampleSound(v: Codec, frozen: State, wanted: seq<int>, sample: int, paths: seq<TrellisPath>,
                    paths': seq<TrellisPath>, prev: seq<TrellisNode>, front: seq<TrellisNode>, offset: int, base: nat,
                    size: nat, d: int)
    requires base <= |paths| == |paths'| && paths[..base] == paths'[..base] && front != []
    requires AllSound(Transition(v), frozen, wanted, paths, prev, offset, base) && AllStatesOk(v, prev)
    requires Filling(Transition(v), sample, paths', prev, |prev| - 1, front, base, size)
    ensures AllSound(Transition(v), frozen, wanted + [sample], paths', Lowered(front, d), offset + d, base + |front|)
    ensures AllStatesOk(v, Lowered(front, d))
  {
    assert forall k :: 0 <= k < base ==> paths[k] == paths[..base][k] == paths'[..base][k] == paths'[k];
    StepKeepsSound(Transition(v), frozen, wanted, sample, paths, paths', prev, front, offset, base, size);
    FillingStates(v, sample, paths', prev, |prev| - 1, front, base, size);
    LoweredSound(Transition(v), frozen, wanted + [sample], paths', front, offset, base + |front|, d);
    forall k | 0 <= k < |front|
      ensures StateOk(v, StateOf(Lowered(front, d)[k]))
    {
      assert StateOk(v, StateOf(front[k]));
    }
  }

  // Writes out the path of the best node.
  method WriteBest(nodes: Frontier, paths: array<TrellisPath>, dst: array<Nibble>, from: nat, to: nat, ghost f: Step,
                   ghost frozen: State, ghost wanted: seq<int>, ghost offset: int, ghost pathn: int)
      returns (best: TrellisNode)
    requires nodes.Valid() && from <= to <= dst.Length && |wanted| == to - from
    requires AllSound(f, frozen, wanted, paths[..], nodes.Nodes(), offset, pathn)
    modifies dst
    ensures best == nodes.Nodes()[0]
    ensures StandsFor(f, frozen, dst[..][from..to], wanted, best, offset)
    ensures dst[..][..from] == old(dst[..])[..from]
  {
    best := nodes.buf[nodes.nodep[0]];
    assert best == nodes.Nodes()[0] && Sound(f, frozen, wanted, paths[..], best, offset);
    ghost var out := dst[..];
    TraceBack(paths, best.path, dst, from, to);
    assert dst[..][from..to] == dst[from..to] && dst[..][..from] == dst[..from] && out[..from] == old(dst[..from]);
  }

  // Kills every node but the best: later nibbles start from its state.
  method Freeze(nodes: Frontier, ghost f: Step, ghost paths: seq<TrellisPath>, ghost best: TrellisNode)
      returns (ghost offset: int)
    requires nodes.Valid() && nodes.live > 0 && best == nodes.Nodes()[0]
    modifies nodes, nodes.nodep
    ensures nodes.Valid() && nodes.Nodes() == [best] && offset == -best.ssd
    ensures AllSound(f, StateOf(best), [], paths, [best], offset, 0)
  {
    nodes.KillOthers();
    offset := -best.ssd;
    assert Sound(f, StateOf(best), [], paths, best, offset);
    assert nodes.Nodes() == [best];
  }

  lemma {:induction false} RunConcat(f: Step, s: State, a: seq<Nibble>, b: seq<Nibble>)
    ensures Run(f, s, a + b) == Run(f, Run(f, s, a), b)
  {
    if b == [] {
      assert a + b == a;
    } else {
      var b' := b[..|b| - 1];
      RunConcat(f, s, a, b');
      assert (a + b)[..|a + b| - 1] == a + b';
    }
  }

  lemma {:induction false} RunIsReplay(v: Codec, s: State, nibbles: seq<Nibble>)
    requires StateOk(v, s)
    ensures Run(Transition(v), s, nibbles) == Replay(v, s, nibbles)
  {
    if nibbles != [] {
      RunIsReplay(v, s, nibbles[..|nibbles| - 1]);
    }
  }

  // The state encoding starts from, read off the channel's fields.
  function InitialState(v: Codec, c: ChannelStatus): State
    reads c
  {
    match v
    case ImaWav => State(c.prevSample, c.sample2, c.stepIndex)
    case Ms(_, _) => State(c.sample1, c.sample2, c.idelta)
    case Yamaha => if c.step == 0 then State(0, c.sample2, 127) else State(c.predictor, c.sample2, c.step)
  }

  // Where the search stands before sample i: dst is final up to froze, and every live node
  // is sound since then.
  ghost predicate Progress(v: Codec, init: State, wanted: seq<int>, i: int, froze: int, frozen: State, offset: int,
                           pathn: int, paths: seq<TrellisPath>, front: seq<TrellisNode>, dst: seq<Nibble>, size: nat)
  {
    && i - froze - 1 < FREEZE_INTERVAL
    && Searched(v, init, wanted, i, froze, frozen, offset, pathn, paths, front, dst, size)
  }

  // The same, with a freeze perhaps due.
  ghost predicate Searched(v: Codec, init: State, wanted: seq<int>, i: int, froze: int, frozen: State, offset: int,
                           pathn: int, paths: seq<TrellisPath>, front: seq<TrellisNode>, dst: seq<Nibble>, size: nat)
  {
    && -1 <= froze < i <= |wanted| <= |dst| && |paths| == size * FREEZE_INTERVAL
    && i - froze - 1 <= FREEZE_INTERVAL && 0 <= pathn <= (i - froze - 1) * size
    && AllStatesOk(v, front)
    && AllSound(Transition(v), frozen, wanted[froze + 1..i], paths, front, offset, pathn)
    && Run(Transition(v), init, dst[..froze + 1]) == frozen
    && Tried(Transition(v), init, dst[..froze + 1], wanted[..froze + 1])
  }

  lemma ProgressStart(v: Codec, init: State, wanted: seq<int>, paths: seq<TrellisPath>, dst: seq<Nibble>, size: nat)
    requires StateOk(v, init) && |wanted| <= |dst| && |paths| == size * FREEZE_INTERVAL
    ensures Progress(v, init, wanted, 0, -1, init, 0, 0, paths,
                     [TrellisNode(0, 0, init.sample1, init.sample2, init.step)], dst, size)
  {
    var n := TrellisNode(0, 0, init.sample1, init.sample2, init.step);
    assert wanted[0..0] == [] && dst[..0] == [];
    assert StateOf(n) == init;
    assert Sound(Transition(v), init, [], paths, n, 0);
  }

  // The best path so far, from the first sample.
  ghost function Best(v: Codec, init: State, wanted: seq<int>, froze: int, offset: int, front: seq<TrellisNode>,
                      dst: seq<Nibble>): Rung
    requires -1 <= froze < |wanted| && froze < |dst| && front != []
  {
    Rung(StateOf(front[0]),
         TotalError(Transition(v), init, dst[..froze + 1], wanted[..froze + 1]) + front[0].ssd + offset)
  }

  // The rungs up to sample i end at the best node.
  ghost predicate Climbed(v: Codec, init: State, wanted: seq<int>, i: int, froze: int, offset: int,
                          front: seq<TrellisNode>, dst: seq<Nibble>, rungs: seq<Rung>)
  {
    && -1 <= froze < i <= |wanted| <= |dst| && front != []
    && Ladder(v, init, wanted, i, rungs) && rungs[i] == Best(v, init, wanted, froze, offset, front, dst)
  }

  lemma BestIsReached(v: Codec, init: State, wanted: seq<int>, i: int, froze: int, frozen: State, offset: int,
                      pathn: int, paths: seq<TrellisPath>, front: seq<TrellisNode>, dst: seq<Nibble>, size: nat)
    requires Searched(v, init, wanted, i, froze, frozen, offset, pathn, paths, front, dst, size)
    ensures Reached(v, init, wanted[..i], Best(v, init, wanted, froze, offset, front, dst))
  {
    var k := froze + 1;
    var f, a, w, x := Transition(v), dst[..k], wanted[..k], wanted[k..i];
    assert Sound(f, frozen, x, paths, front[0], offset) && StateOk(v, StateOf(front[0]));
    var b := Nibbles(paths, front[0].path, |x|);
    assert wanted[..i] == w + x;
    LeadsOn(v, init, a, b, w, x, frozen, front[0], offset, wanted[..i],
            Best(v, init, wanted, froze, offset, front, dst));
  }

  lemma LeadsOn(v: Codec, init: State, a: seq<Nibble>, b: seq<Nibble>, w: seq<int>, x: seq<int>, frozen: State,
                n: TrellisNode, offset: int, wanted: seq<int>, r: Rung)
    requires |a| == |w| && Run(Transition(v), init, a) == frozen && Tried(Transition(v), init, a, w)
    requires StandsFor(Transition(v), frozen, b, x, n, offset) && StateOk(v, StateOf(n)) && wanted == w + x
    requires r == Rung(StateOf(n), TotalError(Transition(v), init, a, w) + n.ssd + offset)
    ensures Reached(v, init, wanted, r)
  {
    assert |a + b| == |wanted|;
    RunConcat(Transition(v), init, a, b);
    TriedConcat(Transition(v), init, a, b, w, x);
    ErrorConcat(Transition(v), init, a, b, w, x);
    assert Leads(v, init, a + b, wanted, r);
  }

  lemma LadderOn(v: Codec, init: State, wanted: seq<int>, i: nat, rungs: seq<Rung>, p: TrellisNode, offset: int,
                 n: TrellisNode, offset': int, e: int, r: Rung)
    requires i < |wanted| && Ladder(v, init, wanted, i, rungs)
    requires rungs[i] == Rung(StateOf(p), e + p.ssd + offset) && r == Rung(StateOf(n), e + n.ssd + offset')
    requires StateOk(v, StateOf(p)) && NoWorse(v, p, offset, wanted[i], n, offset')
    requires Reached(v, init, wanted[..i + 1], r)
    ensures Ladder(v, init, wanted, i + 1, rungs + [r])
  {
    var a, b := Rung(StateOf(p), p.ssd + offset), Rung(StateOf(n), n.ssd + offset');
    assert NoNibbleBetter(v, a, wanted[i], b);
    forall y: Nibble
      ensures r.error <= rungs[i].error + Miss(v, rungs[i].state, wanted[i], y)
    {
      assert b.error <= a.error + Miss(v, a.state, wanted[i], y);
    }
    LadderGrows(v, init, wanted, i, rungs, r);
  }

  // One more sample has been searched.
  lemma ClimbedOn(v: Codec, init: State, wanted: seq<int>, i: nat, froze: int, frozen: State, offset0: int, offset: int,
                  pathn: int, paths: seq<TrellisPath>, prev: seq<TrellisNode>, front: seq<TrellisNode>,
                  dst: seq<Nibble>, size: nat, rungs: seq<Rung>) returns (more: seq<Rung>)
    requires i < |wanted| && Climbed(v, init, wanted, i, froze, offset0, prev, dst, rungs)
    requires Searched(v, init, wanted, i + 1, froze, frozen, offset, pathn, paths, front, dst, size)
    requires StateOk(v, StateOf(prev[0])) && NoWorse(v, prev[0], offset0, wanted[i], front[0], offset)
    ensures Climbed(v, init, wanted, i + 1, froze, offset, front, dst, more)
  {
    BestIsReached(v, init, wanted, i + 1, froze, frozen, offset, pathn, paths, front, dst, size);
    var best := Best(v, init, wanted, froze, offset, front, dst);
    var e := TotalError(Transition(v), init, dst[..froze + 1], wanted[..froze + 1]);
    LadderOn(v, init, wanted, i, rungs, prev[0], offset0, front[0], offset, e, best);
    more := rungs + [best];
  }

  lemma ClimbedStart(v: Codec, init: State, wanted: seq<int>, dst: seq<Nibble>)
    requires StateOk(v, init) && |wanted| <= |dst|
    ensures Climbed(v, init, wanted, 0, -1, 0, [TrellisNode(0, 0, init.sample1, init.sample2, init.step)], dst,
                    [Rung(init, 0)])
  {
    LadderStart(v, init, wanted);
    assert dst[..0] == [];
  }

  // What a freeze writes has the error of the path it was.
  lemma ClimbedFreeze(v: Codec, init: State, wanted: seq<int>, i: int, froze: int, frozen: State, offset: int,
                      front: seq<TrellisNode>, best: TrellisNode, before: seq<Nibble>, dst: seq<Nibble>,
                      rungs: seq<Rung>)
    requires Climbed(v, init, wanted, i, froze, offset, front, before, rungs) && best == front[0]
    requires |before| == |dst| && before[..froze + 1] == dst[..froze + 1]
    requires Run(Transition(v), init, dst[..froze + 1]) == frozen
    requires StandsFor(Transition(v), frozen, dst[froze + 1..i], wanted[froze + 1..i], best, offset)
    ensures TotalError(Transition(v), init, dst[..i], wanted[..i]) == rungs[i].error
    ensures Climbed(v, init, wanted, i, i - 1, -best.ssd, [best], dst, rungs)
  {
    ErrorSplit(Transition(v), init, dst, wanted, froze + 1, i);
  }

  lemma ErrorSplit(f: Step, s: State, nibbles: seq<Nibble>, wanted: seq<int>, a: nat, b: nat)
    requires a <= b <= |nibbles| && b <= |wanted|
    ensures TotalError(f, s, nibbles[..b], wanted[..b]) == TotalError(f, s, nibbles[..a], wanted[..a])
            + TotalError(f, Run(f, s, nibbles[..a]), nibbles[a..b], wanted[a..b])
  {
    assert nibbles[..b] == nibbles[..a] + nibbles[a..b] && wanted[..b] == wanted[..a] + wanted[a..b];
    ErrorConcat(f, s, nibbles[..a], nibbles[a..b], wanted[..a], wanted[a..b]);
  }

  // A freeze turns progress since the old frozen state into final output.
  lemma ProgressFreeze(v: Codec, init: State, wanted: seq<int>, i: int, froze: int, frozen: State, offset0: int,
                       offset: int, pathn: int, paths: seq<TrellisPath>, front: seq<TrellisNode>, best: TrellisNode,
                       before: seq<Nibble>, dst: seq<Nibble>, size: nat)
    requires Searched(v, init, wanted, i, froze, frozen, offset0, pathn, paths, front, before, size) && best == front[0]
    requires |before| == |dst| && before[..froze + 1] == dst[..froze + 1]
    requires StandsFor(Transition(v), frozen, dst[froze + 1..i], wanted[froze + 1..i], best, offset0)
    requires AllSound(Transition(v), StateOf(best), [], paths, [best], offset, 0)
    ensures Progress(v, init, wanted, i, i - 1, StateOf(best), offset, 0, paths, [best], dst, size)
  {
    assert StateOk(v, StateOf(front[0]));
    RunSplit(Transition(v), init, dst, wanted, froze + 1, i);
    assert wanted[i..i] == [];
  }

  // The same, with the rungs that lead there.
  lemma FreezeKeeps(v: Codec, init: State, wanted: seq<int>, i: int, froze: int, frozen: State, offset0: int,
                    offset: int, pathn: int, paths: seq<TrellisPath>, front: seq<TrellisNode>, best: TrellisNode,
                    before: seq<Nibble>, dst: seq<Nibble>, size: nat, rungs: seq<Rung>)
    requires Searched(v, init, wanted, i, froze, frozen, offset0, pathn, paths, front, before, size) && best == front[0]
    requires Climbed(v, init, wanted, i, froze, offset0, front, before, rungs) && offset == -best.ssd
    requires |before| == |dst| && before[..froze + 1] == dst[..froze + 1]
    requires StandsFor(Transition(v), frozen, dst[froze + 1..i], wanted[froze + 1..i], best, offset0)
    requires AllSound(Transition(v), StateOf(best), [], paths, [best], offset, 0)
    ensures Progress(v, init, wanted, i, i - 1, StateOf(best), offset, 0, paths, [best], dst, size)
    ensures Climbed(v, init, wanted, i, i - 1, offset, [best], dst, rungs)
  {
    ProgressFreeze(v, init, wanted, i, froze, frozen, offset0, offset, pathn, paths, front, best, before, dst, size);
    ClimbedFreeze(v, init, wanted, i, froze, frozen, offset0, front, best, before, dst, rungs);
  }

  lemma RunSplit(f: Step, s: State, nibbles: seq<Nibble>, wanted: seq<int>, a: nat, b: nat)
    requires a <= b <= |nibbles| && b <= |wanted|
    ensures Run(f, s, nibbles[..b]) == Run(f, Run(f, s, nibbles[..a]), nibbles[a..b])
    ensures Tried(f, s, nibbles[..a], wanted[..a]) && Tried(f, Run(f, s, nibbles[..a]), nibbles[a..b], wanted[a..b])
        ==> Tried(f, s, nibbles[..b], wanted[..b])
  {
    assert nibbles[..b] == nibbles[..a] + nibbles[a..b] && wanted[..b] == wanted[..a] + wanted[a..b];
    RunConcat(f, s, nibbles[..a], nibbles[a..b]);
    TriedConcat(f, s, nibbles[..a], nibbles[a..b], wanted[..a], wanted[a..b]);
  }

  lemma {:induction false} TriedConcat(f: Step, s: State, a: seq<Nibble>, b: seq<Nibble>, w: seq<int>, x: seq<int>)
    requires |a| == |w| && |b| == |x|
    ensures Tried(f, s, a, w) && Tried(f, Run(f, s, a), b, x) ==> Tried(f, s, a + b, w + x)
  {
    if b == [] {
      assert a + b == a && w + x == w;
    } else {
      var m := |b| - 1;
      TriedConcat(f, s, a, b[..m], w, x[..m]);
      RunConcat(f, s, a, b[..m]);
      assert a + b == (a + b[..m]) + [b[m]] && w + x == (w + x[..m]) + [x[m]];
      RunAppend(f, s, a + b[..m], b[m], w + x[..m], x[m]);
    }
  }

  lemma OneMoreWanted(wanted: seq<int>, a: int, i: int)
    requires 0 <= a <= i < |wanted|
    ensures wanted[a..i] + [wanted[i]] == wanted[a..i + 1]
  {
  }

  // Sample i, and the freeze that follows every 128th.
  method SearchStep(v: Codec, init: State, wanted: seq<int>, i: nat, froze0: int, nodes: Frontier, next: Frontier,
                    paths: array<TrellisPath>, pathn0: nat, dst: array<Nibble>, ghost frozen0: State,
                    ghost offset0: int, ghost rungs0: seq<Rung>)
      returns (pathn: nat, froze: int, ghost frozen: State, ghost offset: int, ghost rungs: seq<Rung>)
    requires Apart(nodes, next) && nodes.Valid() && next.Valid() && nodes.size >= 2 && i < |wanted|
    requires -32768 <= wanted[i] <= 32767
    requires Progress(v, init, wanted, i, froze0, frozen0, offset0, pathn0, paths[..], nodes.Nodes(), dst[..],
                      nodes.size)
    requires Climbed(v, init, wanted, i, froze0, offset0, nodes.Nodes(), dst[..], rungs0)
    modifies next, next.nodep, next.buf, paths, dst
    ensures nodes.Valid() && next.Valid()
    ensures Progress(v, init, wanted, i + 1, froze, frozen, offset, pathn, paths[..], next.Nodes(), dst[..], next.size)
    ensures Climbed(v, init, wanted, i + 1, froze, offset, next.Nodes(), dst[..], rungs)
  {
    froze, frozen := froze0, frozen0;
    pathn, offset, rungs := SearchSample(v, init, wanted, i, froze, nodes, next, paths, pathn0, dst, frozen0, offset0,
                                         rungs0);
    if i == froze + FREEZE_INTERVAL {
      frozen, offset := FreezeAt(v, init, wanted, i, froze, next, paths, pathn, dst, frozen, offset, rungs);
      froze := i;
      pathn := 0;
    }
  }

  method SearchSample(v: Codec, init: State, wanted: seq<int>, i: nat, froze: int, nodes: Frontier, next: Frontier,
                      paths: array<TrellisPath>, pathn0: nat, dst: array<Nibble>, ghost frozen: State,
                      ghost offset0: int, ghost rungs0: seq<Rung>)
      returns (pathn: nat, ghost offset: int, ghost rungs: seq<Rung>)
    requires Apart(nodes, next) && nodes.Valid() && next.Valid() && nodes.size >= 2 && i < |wanted|
    requires -32768 <= wanted[i] <= 32767
    requires Progress(v, init, wanted, i, froze, frozen, offset0, pathn0, paths[..], nodes.Nodes(), dst[..], nodes.size)
    requires Climbed(v, init, wanted, i, froze, offset0, nodes.Nodes(), dst[..], rungs0)
    modifies next, next.nodep, next.buf, paths
    ensures nodes.Valid() && next.Valid() && dst[..] == old(dst[..])
    ensures Searched(v, init, wanted, i + 1, froze, frozen, offset, pathn, paths[..], next.Nodes(), dst[..], next.size)
    ensures Climbed(v, init, wanted, i + 1, froze, offset, next.Nodes(), dst[..], rungs)
  {
    ghost var prev := nodes.Nodes();
    RoomForPaths(i - froze - 1, nodes.size, pathn0);
    pathn, offset := OneSample(v, wanted[i], nodes, next, paths, pathn0, frozen, wanted[froze + 1..i], offset0);
    OneMoreWanted(wanted, froze + 1, i);
    rungs := ClimbedOn(v, init, wanted, i, froze, frozen, offset0, offset, pathn, paths[..], prev, next.Nodes(),
                       dst[..], next.size, rungs0);
  }

  // Sample i was the last before a freeze: the best path is written and becomes the past.
  method FreezeAt(v: Codec, init: State, wanted: seq<int>, i: nat, froze: int, next: Frontier,
                  paths: array<TrellisPath>, ghost pathn: nat, dst: array<Nibble>, ghost frozen0: State,
                  ghost offset0: int, ghost rungs: seq<Rung>)
      returns (ghost frozen: State, ghost offset: int)
    requires next.Valid() && i < |wanted| && i == froze + FREEZE_INTERVAL
    requires Searched(v, init, wanted, i + 1, froze, frozen0, offset0, pathn, paths[..], next.Nodes(), dst[..],
                      next.size)
    requires Climbed(v, init, wanted, i + 1, froze, offset0, next.Nodes(), dst[..], rungs)
    modifies next, next.nodep, next.buf, dst
    ensures next.Valid()
    ensures Progress(v, init, wanted, i + 1, i, frozen, offset, 0, paths[..], next.Nodes(), dst[..], next.size)
    ensures Climbed(v, init, wanted, i + 1, i, offset, next.Nodes(), dst[..], rungs)
  {
    ghost var out, ps, front := dst[..], paths[..], next.Nodes();
    ghost var best := WriteBest(next, paths, dst, froze + 1, i + 1, Transition(v), frozen0, wanted[froze + 1..i + 1],
                                offset0, pathn);
    offset := Freeze(next, Transition(v), ps, best);
    FreezeKeeps(v, init, wanted, i + 1, froze, frozen0, offset0, offset, pathn, ps, front, best, out, dst[..],
                next.size, rungs);
    frozen := StateOf(best);
  }

  // The nibbles written lead along a ladder to the state given back.
  ghost predicate Ends(v: Codec, init: State, wanted: seq<int>, nibbles: seq<Nibble>, last: State, rungs: seq<Rung>)
    requires StateOk(v, init)
  {
    && |nibbles| == |wanted| && last == Replay(v, init, nibbles) && Tried(Transition(v), init, nibbles, wanted)
    && Ladder(v, init, wanted, |wanted|, rungs)
    && rungs[|wanted|] == Rung(last, TotalError(Transition(v), init, nibbles, wanted))
  }

  method SearchLoop(v: Codec, init: State, wanted: seq<int>, dst: array<Nibble>, size: nat)
      returns (last: State, ghost rungs: seq<Rung>)
    requires StateOk(v, init) && size >= 2 && dst.Length >= |wanted| && Shorts(wanted)
    modifies dst
    ensures Ends(v, init, wanted, dst[..|wanted|], last, rungs)
  {
    var paths := new TrellisPath[size * FREEZE_INTERVAL](_ => TrellisPath(0, 0));
    var nodes := new Frontier(size);
    var next := new Frontier(size);
    nodes.Start(init);
    ProgressStart(v, init, wanted, paths[..], dst[..], size);
    ghost var frozen, offset;
    var froze, pathn;
    ClimbedStart(v, init, wanted, dst[..]);
    nodes, froze, pathn, frozen, offset, rungs := SearchAll(v, init, wanted, nodes, next, paths, dst);
    last := Finish(v, init, wanted, froze, nodes, paths, dst, frozen, offset, pathn, rungs);
  }

  // All samples, the two frontiers changing places after each.
  method SearchAll(v: Codec, init: State, wanted: seq<int>, nodes0: Frontier, next0: Frontier,
                   paths: array<TrellisPath>,
                   dst: array<Nibble>)
      returns (nodes: Frontier, froze: int, pathn: nat, ghost frozen: State, ghost offset: int, ghost rungs: seq<Rung>)
    requires Apart(nodes0, next0) && nodes0.Valid() && next0.Valid() && nodes0.size == next0.size >= 2 && Shorts(wanted)
    requires Progress(v, init, wanted, 0, -1, init, 0, 0, paths[..], nodes0.Nodes(), dst[..], nodes0.size)
    requires Climbed(v, init, wanted, 0, -1, 0, nodes0.Nodes(), dst[..], [Rung(init, 0)])
    modifies nodes0, nodes0.nodep, nodes0.buf, next0, next0.nodep, next0.buf, paths, dst
    ensures nodes.Valid() && nodes.size == nodes0.size
    ensures Progress(v, init, wanted, |wanted|, froze, frozen, offset, pathn, paths[..], nodes.Nodes(), dst[..],
                     nodes0.size)
    ensures Climbed(v, init, wanted, |wanted|, froze, offset, nodes.Nodes(), dst[..], rungs)
  {
    nodes, froze, pathn, frozen, offset, rungs := nodes0, -1, 0, init, 0, [Rung(init, 0)];
    var next := next0;
    for i := 0 to |wanted|
      invariant (nodes == nodes0 && next == next0) || (nodes == next0 && next == nodes0)
      invariant Apart(nodes, next) && nodes.Valid() && next.Valid() && nodes.size == next.size == nodes0.size
      invariant Progress(v, init, wanted, i, froze, frozen, offset, pathn, paths[..], nodes.Nodes(), dst[..],
                         nodes0.size)
      invariant Climbed(v, init, wanted, i, froze, offset, nodes.Nodes(), dst[..], rungs)
    {
      pathn, froze, frozen, offset, rungs := SearchStep(v, init, wanted, i, froze, nodes, next, paths, pathn, dst,
                                                        frozen, offset, rungs);
      nodes, next := next, nodes;
    }
  }

  method Finish(v: Codec, init: State, wanted: seq<int>, froze: int, nodes: Frontier, paths: array<TrellisPath>,
                dst: array<Nibble>, ghost frozen: State, ghost offset: int, ghost pathn: int, ghost rungs: seq<Rung>)
      returns (last: State)
    requires StateOk(v, init) && nodes.Valid()
    requires Progress(v, init, wanted, |wanted|, froze, frozen, offset, pathn, paths[..], nodes.Nodes(), dst[..],
                      nodes.size)
    requires Climbed(v, init, wanted, |wanted|, froze, offset, nodes.Nodes(), dst[..], rungs)
    modifies dst
    ensures Ends(v, init, wanted, dst[..|wanted|], last, rungs)
  {
    var n := |wanted|;
    ghost var out := dst[..];
    var best := WriteBest(nodes, paths, dst, froze + 1, n, Transition(v), frozen, wanted[froze + 1..n], offset, pathn);
    last := StateOf(best);
    WholeOutput(v, init, frozen, last, dst[..], wanted, froze + 1, n);
    ClimbedFreeze(v, init, wanted, n, froze, frozen, offset, nodes.Nodes(), best, out, dst[..], rungs);
    assert wanted[..n] == wanted;
    assert dst[..n] == dst[..][..n];
  }

  lemma WholeOutput(v: Codec, init: State, frozen: State, last: State, dst: seq<Nibble>, wanted: seq<int>, k: nat,
                    n: nat)
    requires StateOk(v, init) && k <= n == |wanted| <= |dst|
    requires Run(Transition(v), init, dst[..k]) == frozen && Run(Transition(v), frozen, dst[k..n]) == last
    requires Tried(Transition(v), init, dst[..k], wanted[..k]) && Tried(Transition(v), frozen, dst[k..n], wanted[k..n])
    ensures Replay(v, init, dst[..n]) == last && Tried(Transition(v), init, dst[..n], wanted[..n])
  {
    RunSplit(Transition(v), init, dst, wanted, k, n);
    RunIsReplay(v, init, dst[..n]);
  }

  // Between two freezes at most 128 frontiers are filled, so the path slots suffice.
  lemma RoomForPaths(steps: int, size: nat, pathn: int)
    requires 0 <= steps < FREEZE_INTERVAL && pathn <= steps * size
    ensures pathn + size <= (steps + 1) * size <= size * FREEZE_INTERVAL
  {
    OneMoreTime(steps, size);
    AtMostTimes(steps + 1, FREEZE_INTERVAL, size);
  }

  lemma OneMoreTime(n: int, size: int)
    ensures (n + 1) * size == n * size + size
  {
  }

  lemma AtMostTimes(a: int, b: int, size: int)
    requires a <= b && size >= 0
    ensures a * size <= size * b
  {
  }

  // Every stride-th sample, from the first.
  function Strided(samples: seq<int>, stride: nat, n: nat): (s: seq<int>)
    requires n > 0 ==> (n - 1) * stride < |samples|
    ensures |s| == n
  {
    if n == 0 then []
    else
      assert (n - 1) * stride >= 0;
      assert n > 1 ==> (n - 2) * stride <= (n - 1) * stride;
      Strided(samples, stride, n - 1) + [samples[(n - 1) * stride]]
  }

  lemma {:induction false} StridedShorts(samples: seq<int>, stride: nat, n: nat)
    requires Shorts(samples) && (n > 0 ==> (n - 1) * stride < |samples|)
    ensures Shorts(Strided(samples, stride, n))
  {
    if n > 1 {
      assert (n - 2) * stride <= (n - 1) * stride;
    }
    if n > 0 {
      StridedShorts(samples, stride, n - 1);
    }
  }

  // adpcm_compress_trellis: the nibbles in dst, decoded from the state the channel was in,
  // lead to exactly the state the channel is left in; and from each sample to the next the best
  // path there is has no greater error than any nibble after the best path before would have.
  method CompressTrellis(v: Codec, trellis: nat, stride: nat, samples: seq<int>, dst: array<Nibble>, c: ChannelStatus,
                         n: nat) returns (ghost rungs: seq<Rung>)
    requires trellis > 0 && stride > 0 && dst.Length >= n && (n > 0 ==> (n - 1) * stride < |samples|)
    requires Shorts(samples)
    requires StateOk(v, InitialState(v, c))
    requires v.Ms? ==> v == Ms(c.coeff1, c.coeff2)
    modifies dst, c
    ensures var last := Replay(v, old(InitialState(v, c)), dst[..n]);
            && c.predictor == c.sample1 == last.sample1 && c.sample2 == last.sample2
            && c.stepIndex == c.step == c.idelta == last.step
    ensures Ends(v, old(InitialState(v, c)), Strided(samples, stride, n), dst[..n],
                 Replay(v, old(InitialState(v, c)), dst[..n]), rungs)
    ensures c.prevSample == old(c.prevSample) && c.coeff1 == old(c.coeff1) && c.coeff2 == old(c.coeff2)
  {
    StridedShorts(samples, stride, n);
    var last;
    last, rungs := SearchLoop(v, InitialState(v, c), Strided(samples, stride, n), dst, Pow2(trellis));
    c.predictor := last.sample1;
    c.sample1 := last.sample1;
    c.sample2 := last.sample2;
    c.stepIndex := last.step;
    c.step := last.step;
    c.idelta := last.step;
  }
}
