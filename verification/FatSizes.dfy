/** The size of a FAT16 allocation table: the fixed-point search of fat16.c and when it ends. */
module FatSizes {

  const ROOT_SECTORS: nat := (512 * 32 + 511) / 512

  /** data_sectors as an unsigned 32-bit number. */
  function DataSectors(total: nat, f: nat): nat {
    (total - 1 - 2 * f - ROOT_SECTORS) % 0x1_0000_0000
  }

  function Clusters(total: nat, f: nat): nat {
    DataSectors(total, f) / 8
  }

  /** Is the volume of a size that FAT16 can describe, with tables of f sectors? */
  predicate InRange(total: nat, f: nat) {
    0 < DataSectors(total, f) < 0x8000_0000 && 4085 <= Clusters(total, f) < 65525
  }

  /** Sectors needed for two bytes a cluster. */
  function Needed(clusters: nat): nat {
    (clusters * 2 + 511) / 512
  }

  predicate Stops(total: nat, f: nat) {
    !InRange(total, f) || Needed(Clusters(total, f)) == f
  }

  /** fat_size after n rounds of the loop. */
  function SizeAfter(total: nat, n: nat): nat {
    if n == 0 then 1
    else
      var f := SizeAfter(total, n - 1);
      if Stops(total, f) then f else Needed(Clusters(total, f))
  }

  ghost predicate Halts(total: nat) {
    exists n: nat :: Stops(total, SizeAfter(total, n))
  }

  /** The sizes between which the search swings for ever. */
  predicate Diverges(total: nat) {
    exists k: nat :: 16 <= k <= 255 && Swings(total, k)
  }

  predicate Swings(total: nat, k: nat) {
    total == 2050 * k + 41 || total == 2050 * k + 42
  }

  // ----- arithmetic of one round

  /** Without wrap-around, data sectors are what is left after the other areas. */
  lemma DataIsRest(total: nat, f: nat)
    requires total < 0x1_0000_0000 && f <= 256
    ensures InRange(total, f) ==> DataSectors(total, f) == total - 33 - 2 * f
    ensures InRange(total, f) <==> 32680 <= total - 33 - 2 * f < 524200
  {
    var d := total - 33 - 2 * f;
    if d < 0 {
      assert DataSectors(total, f) == d + 0x1_0000_0000;
    } else {
      assert DataSectors(total, f) == d;
    }
  }

  /** Sixteen to 256 sectors suffice for every FAT16 volume, and more clusters never need fewer. */
  lemma NeededBounds(c: nat)
    requires 4085 <= c < 65525
    ensures 16 <= Needed(c) <= 256
    ensures 256 * (Needed(c) - 1) < c <= 256 * Needed(c)
  {
  }

  lemma NeededIs(c: nat, n: nat)
    requires n >= 1 && 256 * (n - 1) < c <= 256 * n
    ensures Needed(c) == n
  {
  }

  /** The next size differs from that for one sector by at most one, downwards. */
  lemma RoundsAreClose(total: nat, f: nat)
    requires total < 0x1_0000_0000 && 1 <= f <= 256 && InRange(total, 1) && InRange(total, f)
    ensures Needed(Clusters(total, 1)) - 1 <= Needed(Clusters(total, f)) <= Needed(Clusters(total, 1))
  {
    DataIsRest(total, 1);
    DataIsRest(total, f);
    var c, d := Clusters(total, 1), Clusters(total, f);
    assert c - 64 <= d <= c;
    NeededBounds(c);
    NeededBounds(d);
  }

  /** A table that is a fixed point is the only one. */
  lemma FixedPointIsUnique(total: nat, f: nat, h: nat)
    requires total < 0x1_0000_0000 && f < h <= 256 && InRange(total, f) && InRange(total, h)
    ensures !(Needed(Clusters(total, f)) == f && Needed(Clusters(total, h)) == h)
  {
    DataIsRest(total, f);
    DataIsRest(total, h);
    assert Clusters(total, h) <= Clusters(total, f);
    NeededBounds(Clusters(total, f));
    NeededBounds(Clusters(total, h));
  }

  // ----- when the search ends

  /** Two neighbouring sizes ask for each other exactly in the diverging volumes. */
  lemma SwingsExactly(total: nat, s: nat)
    requires total < 0x1_0000_0000 && 2 <= s <= 256 && InRange(total, s) && InRange(total, s - 1)
    ensures Needed(Clusters(total, s)) == s - 1 && Needed(Clusters(total, s - 1)) == s
            <==> Swings(total, s - 1) && 16 <= s - 1
  {
    DataIsRest(total, s);
    DataIsRest(total, s - 1);
    var c, d := Clusters(total, s), Clusters(total, s - 1);
    assert c <= d <= c + 1;
    NeededBounds(c);
    NeededBounds(d);
    if Needed(c) == s - 1 && Needed(d) == s {
      assert c == 256 * (s - 1) && d == c + 1;
    }
    if Swings(total, s - 1) {
      assert DataSectors(total, s) == 2048 * (s - 1) + 6 || DataSectors(total, s) == 2048 * (s - 1) + 7;
      assert c == 256 * (s - 1) && d == 256 * (s - 1) + 1;
      NeededIs(c, s - 1);
      NeededIs(d, s);
    }
  }

  /** Volumes for which the very first size is in range. */
  lemma FirstSize(total: nat)
    requires total < 0x1_0000_0000 && InRange(total, 1)
    ensures 32715 <= total < 524235 && var s := SizeAfter(total, 1); 16 <= s <= 256 && s == Needed(Clusters(total, 1))
  {
    DataIsRest(total, 1);
    NeededBounds(Clusters(total, 1));
  }

  /** Where the search is after two rounds: settled, or between s and s - 1 in both of which it is in range. */
  lemma TwoRounds(total: nat)
    requires total < 0x1_0000_0000
    ensures var s, t := SizeAfter(total, 1), SizeAfter(total, 2);
            && 1 <= t <= s <= 256
            && (Stops(total, t) || (t == s - 1 && s >= 16 && AskEachOther(total, s)))
  {
    if InRange(total, 1) {
      FirstSize(total);
      var s := SizeAfter(total, 1);
      if !Stops(total, s) {
        RoundsAreClose(total, s);
        var t := SizeAfter(total, 2);
        if !Stops(total, t) {
          RoundsAreClose(total, t);
        }
      }
    }
  }

  lemma {:induction false} SettledStays(total: nat, m: nat, n: nat)
    requires m <= n && Stops(total, SizeAfter(total, m))
    ensures SizeAfter(total, n) == SizeAfter(total, m)
    decreases n
  {
    if n > m {
      SettledStays(total, m, n - 1);
    }
  }

  /** Sizes s and s - 1 ask for each other. */
  predicate AskEachOther(total: nat, s: nat) {
    && s > 0 && InRange(total, s) && InRange(total, s - 1)
    && Needed(Clusters(total, s)) == s - 1 && Needed(Clusters(total, s - 1)) == s
  }

  lemma OneStays(total: nat)
    ensures Stops(total, 1) ==> SizeAfter(total, 1) == 1 && SizeAfter(total, 2) == 1
  {
  }

  /** From two sizes that ask for each other the search never gets away. */
  lemma {:induction false} SwingsForever(total: nat, s: nat, n: nat)
    requires AskEachOther(total, s) && s == SizeAfter(total, 1) && s - 1 == SizeAfter(total, 2)
    ensures SizeAfter(total, n) == if n == 0 then 1 else if n % 2 == 1 then s else s - 1
    ensures !Stops(total, SizeAfter(total, n))
    decreases n
  {
    hide InRange, Needed, Clusters;
    if n > 2 {
      SwingsForever(total, s, n - 1);
    }
    OneStays(total);
  }

  /** A diverging volume is in range with the first size and with both sizes of its swing. */
  lemma DivergingSizes(total: nat, k: nat)
    requires 16 <= k <= 255 && Swings(total, k)
    ensures total < 0x1_0000_0000 && InRange(total, 1) && InRange(total, k) && InRange(total, k + 1)
    ensures SizeAfter(total, 1) == k + 1 && SizeAfter(total, 2) == k
  {
    DataIsRest(total, 1);
    DataIsRest(total, k);
    DataIsRest(total, k + 1);
    var c := Clusters(total, 1);
    assert 256 * k < c <= 256 * (k + 1);
    NeededIs(c, k + 1);
    SwingsExactly(total, k + 1);
  }

  /** On the volumes of 2050 * k + 41 and 2050 * k + 42 sectors the search swings between k + 1 and k for ever. */
  lemma DivergesForever(total: nat, k: nat, n: nat)
    requires 16 <= k <= 255 && Swings(total, k)
    ensures SizeAfter(total, n) == if n == 0 then 1 else if n % 2 == 1 then k + 1 else k
    ensures !Stops(total, SizeAfter(total, n))
  {
    hide Stops, Needed, Clusters, InRange, SizeAfter;
    DivergingSizes(total, k);
    SwingsExactly(total, k + 1);
    SwingsForever(total, k + 1, n);
  }

  /**
     The search for the table size ends, after at most two rounds, for every volume except the two sizes
     2050 * k + 41 and 2050 * k + 42 for each k from 16 to 255; for those it swings between k + 1 and k for ever.
     */
  lemma HaltsExactly(total: nat)
    requires total < 0x1_0000_0000
    ensures Halts(total) <==> !Diverges(total)
    ensures Halts(total) <==> Stops(total, SizeAfter(total, 2))
  {
    hide Stops, Needed, Clusters, InRange, SizeAfter;
    TwoRounds(total);
    var s, t := SizeAfter(total, 1), SizeAfter(total, 2);
    if Stops(total, t) {
      if Diverges(total) {
        var k: nat :| 16 <= k <= 255 && Swings(total, k);
        DivergingSizes(total, k);
        SwingsExactly(total, k + 1);
        SwingsForever(total, k + 1, 2);
        assert false;
      }
    } else {
      SwingsExactly(total, s);
      assert Swings(total, s - 1);
      forall n: nat ensures !Stops(total, SizeAfter(total, n)) {
        SwingsForever(total, s, n);
      }
    }
  }

  /** The result of a search that ends: the table size, or 0 for a volume out of range. */
  function FatSize(total: nat): nat {
    var f := SizeAfter(total, 2);
    if InRange(total, f) then f else 0
  }

  /**
     Whenever the search ends, its result is 0 exactly below 32745 and from 524235 sectors on; otherwise it is the only
     size that is just enough for two bytes a cluster, and the clusters are a FAT16 number.
     */
  lemma FatSizeIsRight(total: nat)
    requires total < 0x1_0000_0000 && Halts(total)
    ensures FatSize(total) == 0 <==> total < 32745 || total >= 524235
    ensures var f := FatSize(total);
            f != 0 ==> && 16 <= f <= 256 && f == Needed(Clusters(total, f)) && 4085 <= Clusters(total, f) < 65525
                       && forall h: nat ::
                            1 <= h <= 256 && h != f && InRange(total, h) ==> Needed(Clusters(total, h)) != h
    ensures FatSize(total) != 0 ==> 8 * Clusters(total, FatSize(total)) <= total - 33 - 2 * FatSize(total)
  {
    hide SizeAfter, InRange, Needed, Clusters;
    HaltsExactly(total);
    TwoRounds(total);
    var f := SizeAfter(total, 2);
    OutOfRange(total);
    if InRange(total, f) {
      RightSize(total, f);
      forall h: nat | 1 <= h <= 256 && h != f && InRange(total, h) ensures Needed(Clusters(total, h)) != h {
        if h < f {
          FixedPointIsUnique(total, h, f);
        } else {
          FixedPointIsUnique(total, f, h);
        }
      }
    }
  }

  lemma RightSize(total: nat, f: nat)
    requires total < 0x1_0000_0000 && f <= 256 && InRange(total, f) && Stops(total, f)
    ensures 16 <= f && 4085 <= Clusters(total, f) < 65525 && 8 * Clusters(total, f) <= total - 33 - 2 * f
  {
    DataIsRest(total, f);
    NeededBounds(Clusters(total, f));
  }

  /** The size reached after two rounds is out of range exactly for volumes that are too small or too large. */
  lemma OutOfRange(total: nat)
    requires total < 0x1_0000_0000
    ensures InRange(total, SizeAfter(total, 2)) <==> 32745 <= total < 524235
  {
    hide Needed, Clusters, SizeAfter;
    TwoRounds(total);
    DataIsRest(total, 1);
    var t := SizeAfter(total, 2);
    DataIsRest(total, t);
    if InRange(total, 1) {
      SecondInRange(total);
    } else {
      OneStays(total);
    }
  }

  lemma SecondInRange(total: nat)
    requires total < 0x1_0000_0000 && InRange(total, 1)
    ensures InRange(total, SizeAfter(total, 2)) <==> 32745 <= total
  {
    FirstSize(total);
    var s := SizeAfter(total, 1);
    DataIsRest(total, 1);
    DataIsRest(total, s);
    assert 256 * (s - 1) < Clusters(total, 1);
    if InRange(total, s) {
      RoundsAreClose(total, s);
      DataIsRest(total, SizeAfter(total, 2));
    }
  }

  /** fat16_compute_fat_size: the loop of the source, on the volumes for which it ends. */
  method ComputeFatSize(total: nat) returns (size: nat)
    requires total < 0x1_0000_0000 && !Diverges(total)
    ensures size == FatSize(total)
  {
    hide Needed, Clusters, InRange, SizeAfter;
    HaltsExactly(total);
    var f := 1;
    ghost var n := 0;
    SizeStarts(total);
    while true
      invariant n <= 2 && f == SizeAfter(total, n)
      decreases 2 - n
    {
      SizeSteps(total, n);
      SettledEarly(total, n);
      if !InRange(total, f) {
        return 0;
      }
      var next := Needed(Clusters(total, f));
      if next == f {
        return f;
      }
      f := next;
      n := n + 1;
    }
  }

  lemma SizeStarts(total: nat)
    ensures SizeAfter(total, 0) == 1
  {
  }

  lemma SizeSteps(total: nat, n: nat)
    ensures !Stops(total, SizeAfter(total, n)) ==>
              SizeAfter(total, n + 1) == Needed(Clusters(total, SizeAfter(total, n)))
  {
  }

  lemma SettledEarly(total: nat, n: nat)
    requires n <= 2
    ensures Stops(total, SizeAfter(total, n)) ==> SizeAfter(total, 2) == SizeAfter(total, n)
  {
    if Stops(total, SizeAfter(total, n)) {
      SettledStays(total, n, 2);
    }
  }
}
