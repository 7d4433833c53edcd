// Tables of ATSC A/52 that bit allocation rests on.
module Ac3Tables {
  function LatabLow(r: int): (row: seq<int>)
    ensures |row| == 10 && forall k :: 0 <= k < 10 ==> 0 <= row[k] <= 64
  {
    match r
    case 0 => [64, 63, 62, 61, 60, 59, 58, 57, 56, 55]
    case 1 => [54, 53, 52, 52, 51, 50, 49, 48, 47, 47]
    case 2 => [46, 45, 44, 44, 43, 42, 41, 41, 40, 39]
    case 3 => [38, 38, 37, 36, 36, 35, 35, 34, 33, 33]
    case 4 => [32, 32, 31, 30, 30, 29, 29, 28, 28, 27]
    case 5 => [27, 26, 26, 25, 25, 24, 24, 23, 23, 22]
    case 6 => [22, 21, 21, 21, 20, 20, 19, 19, 19, 18]
    case 7 => [18, 18, 17, 17, 17, 16, 16, 16, 15, 15]
    case 8 => [15, 14, 14, 14, 13, 13, 13, 13, 12, 12]
    case 9 => [12, 12, 11, 11, 11, 11, 10, 10, 10, 10]
    case 10 => [10, 9, 9, 9, 9, 9, 8, 8, 8, 8]
    case 11 => [8, 8, 7, 7, 7, 7, 7, 7, 6, 6]
    case _ => [6, 6, 6, 6, 6, 6, 5, 5, 5, 5]
  }

  function LatabHigh(r: int): (row: seq<int>)
    ensures |row| == 10 && forall k :: 0 <= k < 10 ==> 0 <= row[k] <= 64
  {
    match r
    case 0 => [5, 5, 5, 5, 4, 4, 4, 4, 4, 4]
    case 1 => [4, 4, 4, 4, 4, 3, 3, 3, 3, 3]
    case 2 => [3, 3, 3, 3, 3, 3, 3, 3, 3, 2]
    case 3 => [2, 2, 2, 2, 2, 2, 2, 2, 2, 2]
    case 4 => [2, 2, 2, 2, 2, 2, 2, 2, 1, 1]
    case 5 => [1, 1, 1, 1, 1, 1, 1, 1, 1, 1]
    case 6 => [1, 1, 1, 1, 1, 1, 1, 1, 1, 1]
    case 7 => [1, 1, 1, 1, 1, 1, 1, 1, 1, 1]
    case 8 => [0, 0, 0, 0, 0, 0, 0, 0, 0, 0]
    case 9 => [0, 0, 0, 0, 0, 0, 0, 0, 0, 0]
    case 10 => [0, 0, 0, 0, 0, 0, 0, 0, 0, 0]
    case 11 => [0, 0, 0, 0, 0, 0, 0, 0, 0, 0]
    case _ => [0, 0, 0, 0, 0, 0, 0, 0, 0, 0]
  }

  function Hth0Row(r: int): (row: seq<int>)
    ensures |row| == 10 && forall k :: 0 <= k < 10 ==> 752 <= row[k] <= 2112
  {
    match r
    case 0 => [1232, 1232, 1088, 1024, 992, 960, 944, 944, 928, 928]
    case 1 => [928, 928, 928, 912, 912, 912, 896, 896, 880, 880]
    case 2 => [864, 864, 848, 848, 832, 832, 816, 800, 784, 768]
    case 3 => [752, 752, 752, 752, 768, 784, 832, 912, 992, 1056]
    case _ => [1120, 1168, 1184, 1120, 1088, 1088, 1312, 2048, 2112, 2112]
  }

  function Hth1Row(r: int): (row: seq<int>)
    ensures |row| == 10 && forall k :: 0 <= k < 10 ==> 752 <= row[k] <= 2112
  {
    match r
    case 0 => [1264, 1264, 1120, 1040, 992, 976, 960, 944, 944, 928]
    case 1 => [928, 928, 928, 928, 912, 912, 912, 896, 896, 896]
    case 2 => [880, 880, 864, 864, 848, 848, 832, 832, 800, 784]
    case 3 => [768, 752, 752, 752, 752, 768, 800, 848, 912, 992]
    case _ => [1056, 1104, 1184, 1168, 1120, 1088, 1152, 1584, 2112, 2112]
  }

  function Hth2Row(r: int): (row: seq<int>)
    ensures |row| == 10 && forall k :: 0 <= k < 10 ==> 752 <= row[k] <= 2112
  {
    match r
    case 0 => [1408, 1408, 1200, 1104, 1056, 1008, 992, 976, 960, 944]
    case 1 => [944, 944, 928, 928, 928, 928, 928, 928, 928, 928]
    case 2 => [912, 912, 912, 912, 896, 896, 896, 880, 864, 848]
    case 3 => [832, 816, 800, 784, 768, 752, 752, 752, 768, 784]
    case _ => [816, 848, 960, 1040, 1136, 1184, 1120, 1088, 1104, 1248]
  }

  function BapRow(r: int): (row: seq<int>)
    ensures |row| == (if 0 <= r < 6 then 10 else 4)
    ensures forall j, k :: 0 <= j <= k < |row| ==> 0 <= row[j] <= row[k] <= 15
  {
    match r
    case 0 => [0, 1, 1, 1, 1, 1, 2, 2, 3, 3]
    case 1 => [3, 4, 4, 5, 5, 6, 6, 6, 6, 7]
    case 2 => [7, 7, 7, 8, 8, 8, 8, 9, 9, 9]
    case 3 => [9, 10, 10, 10, 10, 11, 11, 11, 11, 12]
    case 4 => [12, 12, 12, 13, 13, 13, 13, 14, 14, 14]
    case 5 => [14, 14, 14, 14, 14, 15, 15, 15, 15, 15]
    case _ => [15, 15, 15, 15]
  }

  // A band table of three columns, one a sampling rate.
  function Hth(col: int, i: nat): int
    requires i < 50
  {
    if col == 0 then Hth0Row(i / 10)[i % 10] else if col == 1 then Hth1Row(i / 10)[i % 10] else Hth2Row(i / 10)[i % 10]
  }

  // Log-add increments, hearing thresholds by band and sampling rate, and baps by address.
  datatype Tables = Tables(latab: seq<int>, hth: seq<seq<int>>, baptab: seq<int>)

  ghost predicate Sound(t: Tables) {
    && |t.latab| == 256 && (forall i :: 0 <= i < 256 ==> 0 <= t.latab[i] <= 64)
    && |t.hth| == 3
    && (forall c :: 0 <= c < 3 ==> |t.hth[c]| == 50)
    && (forall c, i :: 0 <= c < 3 && 0 <= i < 50 ==> 752 <= t.hth[c][i] <= 2112)
    && |t.baptab| == 64 && t.baptab[0] == 0 && t.baptab[63] == 15
    && (forall i :: 0 <= i < 64 ==> 0 <= t.baptab[i] <= 15)
    && (forall i, j :: 0 <= i <= j < 64 ==> t.baptab[i] <= t.baptab[j])
  }

  function Latab(i: nat): int
    requires i < 256
  {
    if i < 130 then LatabLow(i / 10)[i % 10] else LatabHigh(i / 10 - 13)[i % 10]
  }

  function Baptab(i: nat): int
    requires i < 64
  {
    BapRow(i / 10)[i % 10]
  }

  function Standard(): Tables {
    Tables(seq(256, i requires 0 <= i < 256 => Latab(i)),
           seq(3, c => seq(50, i requires 0 <= i < 50 => Hth(c, i))),
           seq(64, i requires 0 <= i < 64 => Baptab(i)))
  }

  lemma LatabRange(i: nat)
    requires i < 256
    ensures 0 <= Latab(i) <= 64
  {
  }

  // Increments fall by one at most from an address to the next.
  lemma LatabStep(i: nat)
    requires i < 255
    ensures 0 <= Latab(i) - Latab(i + 1) <= 1
  {
    if i % 10 < 9 {
      assert (i + 1) / 10 == i / 10 && (i + 1) % 10 == i % 10 + 1;
      LatabInRow(i / 10, i % 10);
    } else {
      assert (i + 1) / 10 == i / 10 + 1 && (i + 1) % 10 == 0;
      LatabRowsMeet(i / 10);
    }
  }

  lemma LatabInRow(r: nat, k: nat)
    requires r <= 25 && k < 9
    ensures r < 13 ==> 0 <= LatabLow(r)[k] - LatabLow(r)[k + 1] <= 1
    ensures r >= 13 ==> 0 <= LatabHigh(r - 13)[k] - LatabHigh(r - 13)[k + 1] <= 1
  {
  }

  lemma LatabRowsMeet(r: nat)
    requires r < 25
    ensures r < 12 ==> 0 <= LatabLow(r)[9] - LatabLow(r + 1)[0] <= 1
    ensures r == 12 ==> 0 <= LatabLow(12)[9] - LatabHigh(0)[0] <= 1
    ensures r > 12 ==> 0 <= LatabHigh(r - 13)[9] - LatabHigh(r - 12)[0] <= 1
  {
  }

  // Two powers that are equal make 64 more; 420 apart the weaker adds nothing.
  lemma LatabEnds()
    ensures Latab(0) == 64 && forall i :: 210 <= i < 256 ==> Latab(i) == 0
  {
    forall i | 210 <= i < 256
      ensures Latab(i) == 0
    {
      assert i / 10 == 21 || i / 10 == 22 || i / 10 == 23 || i / 10 == 24 || i / 10 == 25;
    }
  }

  lemma HthRange(c: int, i: nat)
    requires i < 50
    ensures 752 <= Hth(c, i) <= 2112
  {
  }

  lemma RowsMeet(r: nat)
    requires r < 6
    ensures BapRow(r)[9] <= BapRow(r + 1)[0]
  {
  }

  lemma BaptabStep(i: nat)
    requires i < 63
    ensures 0 <= Baptab(i) <= Baptab(i + 1) <= 15
  {
    if i % 10 == 9 {
      RowsMeet(i / 10);
      assert 0 <= BapRow(i / 10)[8];
    } else {
      assert (i + 1) / 10 == i / 10;
    }
  }

  lemma {:induction false} BaptabMonotone(i: nat, j: nat)
    requires i <= j < 64
    ensures 0 <= Baptab(i) <= Baptab(j) <= 15
  {
    if i < j {
      BaptabMonotone(i, j - 1);
      BaptabStep(j - 1);
    } else if i > 0 {
      BaptabStep(i - 1);
    } else {
      BaptabStep(0);
    }
  }

  // The standard's tables are within the bounds bit allocation needs, and more room never
  // means fewer bits.
  lemma StandardIsSound()
    ensures Sound(Standard())
  {
    var t := Standard();
    forall i | 0 <= i < 256 ensures 0 <= t.latab[i] <= 64 { LatabRange(i); }
    forall c, i | 0 <= c < 3 && 0 <= i < 50 ensures 752 <= t.hth[c][i] <= 2112 { HthRange(c, i); }
    forall i, j | 0 <= i <= j < 64 ensures 0 <= t.baptab[i] <= t.baptab[j] <= 15 { BaptabMonotone(i, j); }
  }
}
