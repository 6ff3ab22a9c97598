/** How a reader finds its way on a formatted volume: where the boot sector says the areas are, and what is there. */
module FatGeometry {
  import opened FatSizes
  import opened BootSectors
  import opened Fat16

  // ----- what a reader computes from the fields of the boot sector

  function TotalSectors(d: Fat): nat {
    if d.ts16 != 0 then d.ts16 else d.ts32
  }

  /** First sector of copy i of the table; the root directory follows the last copy. */
  function TableStart(d: Fat, i: nat): nat {
    d.rsc + i * d.fatS
  }

  function RootStart(d: Fat): nat {
    TableStart(d, d.numFats)
  }

  /** First sector of the clusters: the directory takes 32 bytes an entry. */
  function DataStart(d: Fat): nat
    requires d.bps > 0
  {
    RootStart(d) + (d.rec * 32 + d.bps - 1) / d.bps
  }

  function ClusterCount(d: Fat): int
    requires d.bps > 0 && d.spc > 0
  {
    (TotalSectors(d) - DataStart(d)) / d.spc
  }

  // ----- the formatted volume

  /** What formatting writes, as long as it lasts. */
  predicate Formats(total: nat) {
    total < 0x1_0000_0000 && !Diverges(total) && FatSize(total) != 0
  }

  /** The boot sector, read back. */
  function ReadBoot(total: nat): Fat
    requires total < 0x1_0000_0000 && FatSize(total) < 0x10000
  {
    Decode(SectorAt(total, FatSize(total), 0))
  }

  lemma BootIsNew(total: nat)
    requires Formats(total)
    ensures 1 <= FatSize(total) < 0x10000 && ReadBoot(total) == NewVolume(total, FatSize(total))
  {
    hide Diverges, Halts, Decode, FatSize, NewVolume;
    HaltsExactly(total);
    FatSizeIsRight(total);
    FormattedIsValid(total);
  }

  /**
   The boot sector describes what was written: sectors of the size that was written, the areas one after the other up to
   the sector where the writes ended, and the clusters behind them, as many as the search for the table size counted,
   which is a FAT16 number.
   */
  lemma AreasAreRight(total: nat)
    requires Formats(total)
    ensures FatSize(total) < 0x10000
    ensures var d := ReadBoot(total);
            && d.bps == SECTOR && d.spc > 0 && d.rsc >= 1 && TotalSectors(d) == total
            && DataStart(d) == MetaSectors(FatSize(total)) == |Plan(total, FatSize(total), MetaSectors(FatSize(total)))|
            && DataStart(d) < total
            && ClusterCount(d) == Clusters(total, FatSize(total)) && 4085 <= ClusterCount(d) < 65525
  {
    hide Diverges, Halts, Decode, FatSize;
    BootIsNew(total);
    HaltsExactly(total);
    FatSizeIsRight(total);
    ClustersAreRest(total, FatSize(total));
  }

  lemma ClustersAreRest(total: nat, f: nat)
    requires total < 0x1_0000_0000 && f <= 256 && 8 * Clusters(total, f) <= total - 33 - 2 * f
    requires 4085 <= Clusters(total, f) < 65525
    ensures Clusters(total, f) == (total - 33 - 2 * f) / 8
  {
  }

  lemma TablesInPlan(f: nat, i: nat, k: nat)
    requires i < 2 && k < f
    ensures 1 <= 1 + i * f + k < 1 + 2 * f && (1 + i * f + k == 1 <==> i == 0 && k == 0)
  {
  }

  /**
   The copies of the table lie where the boot sector says: in the first one the two reserved entries, made of the media
   byte and ones, and otherwise blanks up to the root directory and through it, to the first cluster.
   */
  lemma TablesAreRight(total: nat, i: nat, k: nat)
    requires Formats(total)
    ensures FatSize(total) < 0x10000
    ensures var d := ReadBoot(total);
            d.numFats == 2 && d.bps > 0
            && (i < d.numFats && k < d.fatS ==>
                  var s := SectorAt(total, FatSize(total), TableStart(d, i) + k);
                  if i == 0 && k == 0
                  then s[0] as nat == d.media >= 0xf8 && s[1] == s[2] == s[3] == 0xff && s[4..] == ZerosOf(SECTOR - 4)
                  else s == ZerosOf(SECTOR))
            && (RootStart(d) + k < DataStart(d) ==>
                  SectorAt(total, FatSize(total), RootStart(d) + k) == ZerosOf(SECTOR))
  {
    hide Diverges, Halts, Decode, FatSize, Boot;
    BootIsNew(total);
    if i < 2 && k < FatSize(total) {
      TablesInPlan(FatSize(total), i, k);
    }
  }

  /** The code in the boot sector starts behind the structure, and the signature closes the sector. */
  lemma BootStartsBehind(total: nat)
    requires Formats(total)
    ensures FatSize(total) < 0x10000
    ensures var s := SectorAt(total, FatSize(total), 0);
            && s[0] == 0xeb && 2 + s[1] as nat == FAT_BYTES && s[2] == 0x90 && s[510] == 0x55 && s[511] == 0xaa
  {
    hide Diverges, Halts, FatSize;
    BootIsNew(total);
    var v := NewVolume(total, FatSize(total));
    EncodeLength(v);
    assert Encode(v)[..3] == JumpCode();
  }

  predicate Spells(bytes: seq<Octet>, text: string) {
    |bytes| == |text| && forall i :: 0 <= i < |text| ==> bytes[i] as int == text[i] as int
  }

  /** The names in the boot sector, and a fixed disk without hidden sectors of 63 sectors a track and 255 heads. */
  lemma NamesAreRight(total: nat)
    requires Formats(total)
    ensures FatSize(total) < 0x10000
    ensures var d := ReadBoot(total);
            && Spells(d.oem, "MSDOS5.0") && Spells(d.volLab, "NO NAME    ") && Spells(d.fType, "FAT16   ")
            && d.drive == 0x80 && d.hidden == 0 && d.spt == 63 && d.heads == 255 && d.bsig == 0x29 && d.volId != 0
  {
    hide Diverges, Halts, Decode, FatSize;
    BootIsNew(total);
  }

  /**
   A result other than 0 tells which write the disk refused: 4 for the boot sector, 5 for the first sector of a table, 6
   for another sector of a table, 7 for a sector of the root directory.
   */
  lemma FailureTells(total: nat, lba: nat)
    requires Formats(total) && lba < MetaSectors(FatSize(total))
    ensures FatSize(total) < 0x10000
    ensures var d, code := ReadBoot(total), FailureCode(FatSize(total), lba);
            && (code == 4 <==> lba == 0)
            && (code == 5 <==> lba == TableStart(d, 0) || lba == TableStart(d, 1))
            && (code == 6 <==> TableStart(d, 0) < lba < RootStart(d) && lba != TableStart(d, 1))
            && (code == 7 <==> lba >= RootStart(d))
  {
    hide Diverges, Halts, Decode, FatSize;
    BootIsNew(total);
  }

  // ----- room in the table

  /**
   Clusters are numbered from 2, so that a table needs two entries of two bytes more than there are clusters. The search
   leaves them out, and the table has room for every cluster if and only if the number of clusters is neither 0 nor 255
   modulo 256.
   */
  lemma RoomExactly(total: nat)
    requires Formats(total)
    ensures FatSize(total) < 0x10000
    ensures var d := ReadBoot(total);
            d.bps > 0 && d.spc > 0
            && ((ClusterCount(d) + 2) * 2 <= d.fatS * d.bps
                <==> Clusters(total, FatSize(total)) % 256 != 0 && Clusters(total, FatSize(total)) % 256 != 255)
  {
    hide Diverges, Halts, Decode, FatSize, Clusters;
    BootIsNew(total);
    AreasAreRight(total);
    HaltsExactly(total);
    FatSizeIsRight(total);
    EntriesFit(Clusters(total, FatSize(total)), FatSize(total));
  }

  lemma EntriesFit(c: nat, f: nat)
    requires 4085 <= c < 65525 && f == Needed(c)
    ensures (c + 2) * 2 <= f * 512 <==> c % 256 != 0 && c % 256 != 255
  {
    NeededBounds(c);
  }

  /** A volume without that room: 32825 sectors give 4095 clusters, whose last one, number 4096, has no entry in a
      table of 4096 entries. */
  lemma LastClusterHasNoEntry()
    ensures Formats(32825) && FatSize(32825) == 16 && Clusters(32825, 16) == 4095
    ensures var d := ReadBoot(32825);
            d.bps > 0 && d.spc > 0 && (ClusterCount(d) + 2) * 2 > d.fatS * d.bps
  {
    hide Diverges, Halts, Stops, InRange, SizeAfter, Clusters, Needed, ReadBoot, ClusterCount;
    Rounds();
    HaltsExactly(32825);
    RoomExactly(32825);
    AreasAreRight(32825);
  }

  lemma Rounds()
    ensures SizeAfter(32825, 2) == 16 && InRange(32825, 16) && Stops(32825, 16) && Clusters(32825, 16) == 4095
  {
    hide SizeAfter;
    Round(1, 17);
    Round(17, 16);
    SizeSteps();
  }

  lemma SizeSteps()
    requires !Stops(32825, 1) && Needed(Clusters(32825, 1)) == 17
    requires !Stops(32825, 17) && Needed(Clusters(32825, 17)) == 16
    ensures SizeAfter(32825, 2) == 16
  {
    hide Stops, Needed, Clusters;
    assert SizeAfter(32825, 0) == 1;
    assert SizeAfter(32825, 1) == 17;
  }

  lemma Round(f: nat, next: nat)
    requires (f == 1 && next == 17) || (f == 17 && next == 16)
    ensures !Stops(32825, f) && Needed(Clusters(32825, f)) == next
  {
  }
}
