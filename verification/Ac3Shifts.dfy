// When the quantisers of the AC-3 encoder shift by a negative count: never if no block was shifted
// up before; otherwise it depends on all exponents of the run a block shares.
module Ac3Shifts {
  import opened Ac3Exponents

  // ---- one run ----

  // Every exponent that can lower what blocks i to j - 1 send is at least the shift: each of
  // theirs in the n bins there are, the largest that four bits hold, and, with two a group between,
  // block i's in the bins that only fill the last code.
  ghost predicate RunAllows(own: seq<seq<int>>, i: nat, j: nat, s: Strategy, n: nat, shift: int)
    requires i < j <= |own| && forall k :: i <= k < j ==> |own[k]| == 256
  {
    && shift <= 15 && (forall k, b :: i <= k < j && 0 <= b < n && b < 256 ==> shift <= own[k][b])
    && forall b {:trigger own[i][b]} :: n <= b < Coded(n, s) && b < 256 ==>
         shift <= own[i][b] + 2 * (GroupOf(b, s) - GroupOf(n - 1, s))
  }

  // The exponents of the groups that the n bins are in are at least the shift.
  ghost predicate GroupsAllow(e: seq<int>, s: Strategy, n: nat, shift: int) {
    forall g :: 0 <= g <= GroupOf(n - 1, s) && g < |e| ==> shift <= e[g]
  }

  lemma GroupsRise(a: nat, b: nat, s: Strategy)
    requires a <= b
    ensures 0 <= GroupOf(a, s) <= GroupOf(b, s)
  {
  }

  lemma GroupInRange(b: nat, n: nat, s: Strategy)
    requires 0 <= b < First(n, s) && n >= 1
    ensures 0 <= GroupOf(b, s) < n
  {
  }

  // What is sent is never above what it serves.
  lemma AllowedBySent(own: seq<seq<int>>, i: nat, j: nat, s: Strategy, n: nat, shift: int, e: seq<int>, least: seq<int>,
                      m: seq<int>)
    requires LeastOf(least, own, i, j, n) && AreCaps(least, m, s) && IsEnvelope(m, e) && s != Reuse
    requires 1 <= n <= 253 && n % 3 == 1 && |e| == 3 * Triples(n, s) + 1 && GroupsAllow(e, s, n, shift)
    ensures RunAllows(own, i, j, s, n, shift)
  {
    CodedFits(n, s);
    CoverageIff(n);
    var last := GroupOf(n - 1, s);
    GroupInRange(n - 1, |e|, s);
    GroupsRise(0, n - 1, s);
    EnvelopeIsGentle(m, e);
    assert e[0] <= m[0] <= 15;
    forall k, b | i <= k < j && 0 <= b < n
      ensures shift <= own[k][b]
    {
      GroupsRise(b, n - 1, s);
      CapsAreBelow(least, m, s, b);
      assert e[GroupOf(b, s)] <= m[GroupOf(b, s)];
    }
    forall b | n <= b < Coded(n, s)
      ensures shift <= own[i][b] + 2 * (GroupOf(b, s) - last)
    {
      GroupsRise(n - 1, b, s);
      GroupInRange(b, |e|, s);
      CapsAreBelow(least, m, s, b);
      assert e[last] <= Reach(m, GroupOf(b, s), last);
    }
  }

  lemma CapAllows(own: seq<seq<int>>, i: nat, j: nat, s: Strategy, n: nat, shift: int, least: seq<int>, m: seq<int>,
                  g: nat, r: nat)
    requires LeastOf(least, own, i, j, n) && AreCaps(least, m, s) && s != Reuse && r < |m|
    requires 1 <= n <= 253 && n % 3 == 1 && |m| == 3 * Triples(n, s) + 1 && RunAllows(own, i, j, s, n, shift)
    requires g <= GroupOf(n - 1, s)
    ensures shift <= Reach(m, r, g)
  {
    CodedFits(n, s);
    var b := if r == 0 then 0 else CapBin(least, m, s, r);
    if b < n {
      assert Occurs(least[b], own, i, j, b);
      var k :| i <= k < j && least[b] == own[k][b];
    } else {
      GroupsRise(n - 1, b, s);
      assert least[b] == own[i][b];
    }
  }

  // A bin that sets the cap of its group.
  ghost function CapBin(least: seq<int>, m: seq<int>, s: Strategy, r: nat): (b: nat)
    requires AreCaps(least, m, s) && 1 <= r < |m|
    ensures b < |least| && GroupOf(b, s) == r && m[r] == least[b] && b < First(|m|, s)
  {
    assert IsGroupMin(least, m[r], r, s);
    FirstMonotone(r + 1, |m|, s);
    FirstMonotone(0, r, s);
    BinsOfGroup(r, s);
    var b :| First(r, s) <= b < First(r + 1, s) && m[r] == least[b];
    b
  }

  // And it is nowhere lower than it must be.
  lemma AllowedToSend(own: seq<seq<int>>, i: nat, j: nat, s: Strategy, n: nat, shift: int, e: seq<int>, least: seq<int>,
                      m: seq<int>)
    requires LeastOf(least, own, i, j, n) && AreCaps(least, m, s) && IsEnvelope(m, e) && s != Reuse
    requires 1 <= n <= 253 && n % 3 == 1 && |e| == 3 * Triples(n, s) + 1 && RunAllows(own, i, j, s, n, shift)
    ensures GroupsAllow(e, s, n, shift)
  {
    forall g | 0 <= g <= GroupOf(n - 1, s) && g < |e|
      ensures shift <= e[g]
    {
      assert Touches(m, e[g], g, 0, |m|);
      var r :| 0 <= r < |m| && e[g] == Reach(m, r, g);
      CapAllows(own, i, j, s, n, shift, least, m, g, r);
    }
  }

  // ---- one channel ----

  // The block whose exponents block i has.
  function StartOf(s: seq<Strategy>, i: nat): (k: nat)
    requires i < |s| && s[0] != Reuse
    ensures k <= i && s[k] != Reuse && forall l :: k < l <= i ==> s[l] == Reuse
  {
    if s[i] != Reuse then i else StartOf(s, i - 1)
  }

  // Block i of a channel may be shifted up by so much before its exponents are taken.
  ghost predicate BlockAllows(own: seq<seq<int>>, isLfe: bool, n: nat, i: nat, shift: int)
    requires |own| == NB_BLOCKS && (forall k :: 0 <= k < NB_BLOCKS ==> |own[k]| == 256) && i < NB_BLOCKS
  {
    var s := StrategiesOf(own, isLfe);
    s[0] != Reuse && RunAllows(own, StartOf(s, i), RunEnd(s, StartOf(s, i)), s[StartOf(s, i)], n, shift)
  }

  // The exponents block i has are at least the shift.
  ghost predicate BlockFits(encoded: seq<int>, n: nat, shift: int)
    requires |encoded| == 256
  {
    forall k :: 0 <= k < n && k < 256 ==> shift <= encoded[k]
  }

  lemma {:induction false} SameAsStart(encoded: seq<seq<int>>, s: seq<Strategy>, n: nat, e: seq<seq<int>>,
                                       own: seq<seq<int>>, i: nat)
    requires |s| == NB_BLOCKS && s[0] != Reuse && ChannelEncoded(encoded, s, n, e, own, NB_BLOCKS) && i < NB_BLOCKS
    ensures encoded[i][..n] == encoded[StartOf(s, i)][..n]
  {
    if s[i] == Reuse {
      SameAsStart(encoded, s, n, e, own, i - 1);
    }
  }

  // The bins have the exponents of their groups, and every group up to the last bin's has a bin.
  lemma BinsAndGroups(encoded: seq<int>, e: seq<int>, s: Strategy, n: nat, shift: int)
    requires |encoded| == 256 && Sent(encoded, e, s, n) && 1 <= n <= 253 && n % 3 == 1
    ensures BlockFits(encoded, n, shift) <==> GroupsAllow(e, s, n, shift)
  {
    CodedFits(n, s);
    CoverageIff(n);
    GroupInRange(n - 1, |e|, s);
    if BlockFits(encoded, n, shift) {
      forall g | 0 <= g <= GroupOf(n - 1, s) && g < |e|
        ensures shift <= e[g]
      {
        FirstOfGroup(g, n, s);
        assert encoded[First(g, s)] == e[g];
      }
    }
    if GroupsAllow(e, s, n, shift) {
      forall k | 0 <= k < n && k < 256
        ensures shift <= encoded[k]
      {
        GroupsRise(k, n - 1, s);
        assert encoded[k] == e[GroupOf(k, s)];
      }
    }
  }

  lemma FirstOfGroup(g: nat, n: nat, s: Strategy)
    requires n >= 1 && g <= GroupOf(n - 1, s)
    ensures 0 <= First(g, s) < n && GroupOf(First(g, s), s) == g
  {
  }

  // What a block has fits its shift if and only if the exponents of its run allow it.
  lemma BlockFitsIff(own: seq<seq<int>>, isLfe: bool, s: seq<Strategy>, encoded: seq<seq<int>>, e: seq<seq<int>>,
                     n: nat, i: nat, shift: int)
    requires Chosen(own, isLfe, s) && ChannelEncoded(encoded, s, n, e, own, NB_BLOCKS) && |encoded| == NB_BLOCKS
    requires i < NB_BLOCKS && n % 3 == 1
    ensures BlockFits(encoded[i], n, shift) <==> BlockAllows(own, isLfe, n, i, shift)
  {
    ChosenIs(own, isLfe, s);
    var i0 := StartOf(s, i);
    var j := RunEnd(s, i0);
    SameAsStart(encoded, s, n, e, own, i);
    SameBins(encoded[i], encoded[i0], n, shift);
    BinsAndGroups(encoded[i0], e[i0], s[i0], n, shift);
    var least, m :| LeastOf(least, own, i0, j, n) && AreCaps(least, m, s[i0]) && IsEnvelope(m, e[i0]);
    if GroupsAllow(e[i0], s[i0], n, shift) {
      AllowedBySent(own, i0, j, s[i0], n, shift, e[i0], least, m);
    }
    if RunAllows(own, i0, j, s[i0], n, shift) {
      AllowedToSend(own, i0, j, s[i0], n, shift, e[i0], least, m);
    }
  }

  lemma SameBins(a: seq<int>, b: seq<int>, n: nat, shift: int)
    requires |a| == |b| == 256 && n <= 256 && a[..n] == b[..n]
    ensures BlockFits(a, n, shift) <==> BlockFits(b, n, shift)
  {
    forall k | 0 <= k < n
      ensures a[k] == b[k]
    {
      assert a[..n][k] == b[..n][k];
    }
  }

  lemma RunWithoutShift(own: seq<seq<int>>, i: nat, j: nat, s: Strategy, n: nat, shift: int)
    requires i < j <= |own| && forall k :: 0 <= k < |own| ==> |own[k]| == 256 && InRange(own[k])
    requires shift <= 0 && n >= 1
    ensures RunAllows(own, i, j, s, n, shift)
  {
    forall b | n <= b < Coded(n, s) && b < 256
      ensures shift <= own[i][b] + 2 * (GroupOf(b, s) - GroupOf(n - 1, s))
    {
      GroupsRise(n - 1, b, s);
    }
  }

  // Blocks that were not shifted up are always allowed.
  lemma NoShiftUpAllowed(own: seq<seq<int>>, isLfe: bool, n: nat, i: nat, shift: int)
    requires |own| == NB_BLOCKS && (forall k :: 0 <= k < NB_BLOCKS ==> |own[k]| == 256 && InRange(own[k]))
    requires i < NB_BLOCKS
    requires shift <= 0 && n >= 1
    ensures BlockAllows(own, isLfe, n, i, shift)
  {
    var s := StrategiesOf(own, isLfe);
    var i0 := StartOf(s, i);
    RunWithoutShift(own, i0, RunEnd(s, i0), s[i0], n, shift);
  }

  // ---- a run that does not ----

  lemma {:induction false} SteadyVariation(a: seq<int>, b: seq<int>, d: int)
    requires |a| == |b| && forall k :: 0 <= k < |a| ==> Abs(a[k] - b[k]) == d
    ensures Variation(a, b) == |a| * d
  {
    if a != [] {
      SteadyVariation(a[..|a| - 1], b[..|a| - 1], d);
    }
  }

  // A quiet block, shifted up by five, that reuses the exponents of a louder one.
  lemma QuietAfterLoud(own: seq<seq<int>>, isLfe: bool, n: nat)
    requires |own| == NB_BLOCKS && (forall i :: 0 <= i < NB_BLOCKS ==> |own[i]| == 256) && n >= 1
    requires (forall k :: 0 <= k < 256 ==> own[0][k] == 4) && forall k :: 0 <= k < 256 ==> own[1][k] == 5
    ensures !BlockAllows(own, isLfe, n, 1, 5)
  {
    SteadyVariation(own[1], own[0], 1);
    var s := StrategiesOf(own, isLfe);
    assert s[1] == Reuse && StartOf(s, 1) == 0;
    assert own[0][0] == 4;
  }
}
