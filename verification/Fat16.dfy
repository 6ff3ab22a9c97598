/** Formatting and mounting a FAT16 volume (fat16.c), with the disk as a log of sector writes. */
module Fat16 {
  import opened FatSizes
  import opened BootSectors

  const SECTOR: nat := 512
  const VOL_ID: nat := 0x12345678

  function ZerosOf(n: nat): (s: seq<Octet>)
    ensures |s| == n
  {
    seq(n, _ => 0)
  }

  // ----- what formatting writes

  function JumpCode(): (s: seq<Octet>)
    ensures |s| == 3
  {
    [0xeb, 0x3c, 0x90]
  }

  /** "MSDOS5.0" */
  function OemName(): (s: seq<Octet>)
    ensures |s| == 8
  {
    [0x4d, 0x53, 0x44, 0x4f, 0x53, 0x35, 0x2e, 0x30]
  }

  /** "NO NAME    " */
  function VolumeLabel(): (s: seq<Octet>)
    ensures |s| == 11
  {
    [0x4e, 0x4f, 0x20, 0x4e, 0x41, 0x4d, 0x45, 0x20, 0x20, 0x20, 0x20]
  }

  /** "FAT16   " */
  function TypeName(): (s: seq<Octet>)
    ensures |s| == 8
  {
    [0x46, 0x41, 0x54, 0x31, 0x36, 0x20, 0x20, 0x20]
  }

  function NewVolume(total: nat, f: nat): (r: Fat)
    requires total < 0x1_0000_0000 && f < 0x10000
    ensures BootSectors.Fits(r)
  {
    Fat(JumpCode(), OemName(), 512, 8, 1, 2, 512,
        if total <= 0xffff then total else 0, 0xf8, f, 63, 255, 0, if total > 0xffff then total else 0,
        0x80, 0, 0x29, VOL_ID, VolumeLabel(), TypeName())
  }

  function Boot(total: nat, f: nat): (s: seq<Octet>)
    requires total < 0x1_0000_0000 && f < 0x10000
    ensures |s| == SECTOR
  {
    EncodeLength(NewVolume(total, f));
    Encode(NewVolume(total, f)) + ZerosOf(448) + [0x55, 0xaa]
  }

  /** First sector of the first table: the two reserved entries. */
  function TableHead(): (s: seq<Octet>)
    ensures |s| == SECTOR
  {
    [0xf8, 0xff, 0xff, 0xff] + ZerosOf(508)
  }

  function SectorAt(total: nat, f: nat, lba: nat): (s: seq<Octet>)
    requires total < 0x1_0000_0000 && f < 0x10000
    ensures |s| == SECTOR
  {
    if lba == 0 then Boot(total, f) else if lba == 1 then TableHead() else ZerosOf(SECTOR)
  }

  datatype Entry = Entry(lba: nat, data: seq<Octet>)

  /** The first n writes: the k-th goes to sector k. */
  function Plan(total: nat, f: nat, n: nat): (w: seq<Entry>)
    requires total < 0x1_0000_0000 && f < 0x10000
    ensures |w| == n
  {
    seq(n, k requires 0 <= k < n => Entry(k, SectorAt(total, f, k)))
  }

  /** Sectors of the metadata: boot sector, two tables, root directory. */
  function MetaSectors(f: nat): nat {
    1 + 2 * f + ROOT_SECTORS
  }

  /** What the failure of the n-th write is reported as. */
  function FailureCode(f: nat, n: nat): nat {
    if n == 0 then 4 else if n == 1 || n == 1 + f then 5 else if n < 1 + 2 * f then 6 else 7
  }

  /** The metadata ends inside the volume, before its first cluster. */
  lemma WritesStayInside(total: nat)
    requires total < 0x1_0000_0000 && Halts(total) && FatSize(total) != 0
    ensures MetaSectors(FatSize(total)) + 8 * Clusters(total, FatSize(total)) <= total
    ensures FatSize(total) < 0x10000
    ensures forall w :: w in Plan(total, FatSize(total), MetaSectors(FatSize(total))) ==> w.lba < total
  {
    FatSizeIsRight(total);
  }

  /** The second copy of the table starts with a blank sector: the copies differ on every volume. */
  lemma TablesDiffer(total: nat, f: nat)
    requires total < 0x1_0000_0000 && 1 <= f < 0x10000
    ensures SectorAt(total, f, 1) != SectorAt(total, f, 1 + f)
    ensures forall k: nat, m: nat :: 1 < k <= f && m == k + f ==> SectorAt(total, f, k) == SectorAt(total, f, m)
  {
    assert SectorAt(total, f, 1)[0] == 0xf8;
  }

  /** A formatted volume reads back as what was written, passes validation and tells its size and table size. */
  lemma FormattedIsValid(total: nat)
    requires total < 0x1_0000_0000 && Halts(total) && FatSize(total) != 0
    ensures FatSize(total) < 0x10000
    ensures var s := SectorAt(total, FatSize(total), 0);
            && Decode(s) == NewVolume(total, FatSize(total)) && Validate(Decode(s)) == 0
            && Decode(s).fatS == FatSize(total)
            && (if Decode(s).ts16 != 0 then Decode(s).ts16 else Decode(s).ts32) == total
            && s[510] == 0x55 && s[511] == 0xaa
  {
    hide Decode, Encode, Validate;
    FatSizeIsRight(total);
    var f := FatSize(total);
    var v := NewVolume(total, f);
    assert Boot(total, f) == Encode(v) + (ZerosOf(448) + [0x55, 0xaa]);
    DecodeEncode(v, ZerosOf(448) + [0x55, 0xaa]);
    EncodeLength(v);
    ValidExactly(v);
    Powers();
  }

  lemma Powers()
    ensures IsPowerOfTwo(8) && IsPowerOfTwo(512)
  {
    assert IsPowerOfTwo(1) && IsPowerOfTwo(2) && IsPowerOfTwo(4) && IsPowerOfTwo(8) && IsPowerOfTwo(16)
           && IsPowerOfTwo(32);
    assert IsPowerOfTwo(64) && IsPowerOfTwo(128) && IsPowerOfTwo(256);
  }

  // ----- formatting

  class Disk {
    var log: seq<Entry>
    var sectors: map<nat, seq<Octet>>

    constructor ()
      ensures log == [] && sectors == map[]
    {
      log, sectors := [], map[];
    }

    /** ahci_write of one sector; the device may refuse. */
    method Write(lba: nat, sector: array<Octet>) returns (error: bool)
      modifies this
      ensures log == if error then old(log) else old(log) + [Entry(lba, sector[..])]
      ensures sectors == if error then old(sectors) else old(sectors)[lba := sector[..]]
    {
      error := *;
      if !error {
        log := log + [Entry(lba, sector[..])];
        sectors := sectors[lba := sector[..]];
      }
    }

    /** ahci_read of one sector; the device may refuse. */
    method Read(lba: nat) returns (r: Option<seq<Octet>>, refused: bool)
      ensures r.Some? <==> !refused && lba in sectors
      ensures r.Some? ==> r.value == sectors[lba]
    {
      refused := *;
      r := if refused || lba !in sectors then None else Some(sectors[lba]);
    }
  }

  datatype Option<T> = None | Some(value: T)

  method Clear(sector: array<Octet>)
    modifies sector
    ensures sector[..] == ZerosOf(sector.Length)
  {
    for i := 0 to sector.Length
      invariant forall j :: 0 <= j < i ==> sector[j] == 0
    {
      sector[i] := 0;
    }
  }

  /** Stores bytes behind the ones already placed in a sector that is zero from there on. */
  method Store(sector: array<Octet>, ghost done: seq<Octet>, at: nat, bytes: seq<Octet>)
    returns (ghost more: seq<Octet>)
    requires |done| == at && at + |bytes| <= sector.Length && sector[..] == done + ZerosOf(sector.Length - at)
    modifies sector
    ensures more == done + bytes && sector[..] == more + ZerosOf(sector.Length - |more|)
  {
    for i := 0 to |bytes|
      invariant forall j :: 0 <= j < at ==> sector[j] == done[j]
      invariant forall j :: 0 <= j < i ==> sector[at + j] == bytes[j]
      invariant forall j :: at + i <= j < sector.Length ==> sector[j] == 0
    {
      sector[at + i] := bytes[i];
    }
    more := done + bytes;
  }

  /** A field left at zero. */
  lemma Skipped(s: seq<Octet>, done: seq<Octet>, n: nat, w: nat)
    requires w <= n && s == done + ZerosOf(n)
    ensures s == done + ZerosOf(w) + ZerosOf(n - w)
  {
    assert ZerosOf(n) == ZerosOf(w) + ZerosOf(n - w);
  }

  lemma LittleZeros()
    ensures Le16(0) == ZerosOf(2) && Le32(0) == ZerosOf(4)
  {
  }

  /** The structure up to the cluster size, up to the media byte, and up to the 32-bit size. */
  function Start(v: Fat): seq<Octet> {
    v.jump + v.oem + Le16(v.bps) + Le8(v.spc)
  }

  function Head(v: Fat): seq<Octet> {
    Start(v) + Le16(v.rsc) + Le8(v.numFats) + Le16(v.rec) + Le16(v.ts16) + Le8(v.media)
  }

  function Bpb(v: Fat): seq<Octet> {
    Head(v) + Le16(v.fatS) + Le16(v.spt) + Le16(v.heads) + Le32(v.hidden) + Le32(v.ts32)
  }

  lemma PartLengths(v: Fat)
    requires BootSectors.Fits(v)
    ensures |Start(v)| == 14 && |Head(v)| == 22 && |Bpb(v)| == 36
    ensures Encode(v) == Bpb(v) + Le8(v.drive) + Le8(v.r1) + Le8(v.bsig) + Le32(v.volId) + v.volLab + v.fType
  {
    hide Le8, Le16, Le32;
  }

  /** Field 16 or 32 bits wide that is written only when it holds the size. */
  method StoreSize(sector: array<Octet>, ghost done: seq<Octet>, at: nat, present: bool, bytes: seq<Octet>)
    returns (ghost more: seq<Octet>)
    requires |done| == at && at + |bytes| <= sector.Length && sector[..] == done + ZerosOf(sector.Length - at)
    requires !present ==> bytes == ZerosOf(|bytes|)
    modifies sector
    ensures more == done + bytes && sector[..] == more + ZerosOf(sector.Length - |more|)
  {
    if present {
      more := Store(sector, done, at, bytes);
    } else {
      Skipped(sector[..], done, sector.Length - at, |bytes|);
      more := done + bytes;
    }
  }

  method FillJump(sector: array<Octet>) returns (ghost done: seq<Octet>)
    requires sector.Length == SECTOR && sector[..] == ZerosOf(SECTOR)
    modifies sector
    ensures done == JumpCode() && sector[..] == done + ZerosOf(SECTOR - |done|)
  {
    hide ZerosOf, JumpCode;
    assert [] + ZerosOf(SECTOR) == ZerosOf(SECTOR);
    done := Store(sector, [], 0, JumpCode());
    assert done == JumpCode();
  }

  method FillStart(sector: array<Octet>, total: nat, f: nat) returns (ghost done: seq<Octet>)
    requires total < 0x1_0000_0000 && f < 0x10000 && sector.Length == SECTOR && sector[..] == ZerosOf(SECTOR)
    modifies sector
    ensures done == Start(NewVolume(total, f)) && sector[..] == done + ZerosOf(SECTOR - |done|)
  {
    hide Le8, Le16, ZerosOf, JumpCode, OemName;
    done := FillJump(sector);
    done := Store(sector, done, 3, OemName());
    done := Store(sector, done, 11, Le16(512));
    done := Store(sector, done, 13, Le8(8));
  }

  method FillHead(sector: array<Octet>, total: nat, f: nat) returns (ghost done: seq<Octet>)
    requires total < 0x1_0000_0000 && f < 0x10000 && sector.Length == SECTOR && sector[..] == ZerosOf(SECTOR)
    modifies sector
    ensures done == Head(NewVolume(total, f)) && sector[..] == done + ZerosOf(SECTOR - |done|)
  {
    hide Le8, Le16, ZerosOf, Start;
    LittleZeros();
    PartLengths(NewVolume(total, f));
    done := FillStart(sector, total, f);
    done := Store(sector, done, 14, Le16(1));
    done := Store(sector, done, 16, Le8(2));
    done := Store(sector, done, 17, Le16(512));
    done := StoreSize(sector, done, 19, total <= 0xffff, Le16(if total <= 0xffff then total else 0));
    done := Store(sector, done, 21, Le8(0xf8));
  }

  method FillBpb(sector: array<Octet>, total: nat, f: nat) returns (ghost done: seq<Octet>)
    requires total < 0x1_0000_0000 && f < 0x10000 && sector.Length == SECTOR && sector[..] == ZerosOf(SECTOR)
    modifies sector
    ensures done == Bpb(NewVolume(total, f)) && sector[..] == done + ZerosOf(SECTOR - |done|)
  {
    hide Le8, Le16, Le32, ZerosOf, Head;
    LittleZeros();
    PartLengths(NewVolume(total, f));
    done := FillHead(sector, total, f);
    done := Store(sector, done, 22, Le16(f));
    done := Store(sector, done, 24, Le16(63));
    done := Store(sector, done, 26, Le16(255));
    done := Store(sector, done, 28, Le32(0));
    done := StoreSize(sector, done, 32, total > 0xffff, Le32(if total > 0xffff then total else 0));
  }

  /** The boot sector, field by field, over a sector of zeros. */
  method FillBoot(sector: array<Octet>, total: nat, f: nat)
    requires total < 0x1_0000_0000 && f < 0x10000 && sector.Length == SECTOR && sector[..] == ZerosOf(SECTOR)
    modifies sector
    ensures sector[..] == Boot(total, f)
  {
    hide Le8, Le16, Le32, ZerosOf, Bpb, Encode, VolumeLabel, TypeName;
    PartLengths(NewVolume(total, f));
    ghost var done := FillBpb(sector, total, f);
    done := Store(sector, done, 36, Le8(0x80));
    done := Store(sector, done, 37, Le8(0));
    done := Store(sector, done, 38, Le8(0x29));
    done := Store(sector, done, 39, Le32(VOL_ID));
    done := Store(sector, done, 43, VolumeLabel());
    done := Store(sector, done, 54, TypeName());
    Skipped(sector[..], done, 450, 448);
    done := Store(sector, done + ZerosOf(448), 510, [0x55, 0xaa]);
    assert done + ZerosOf(0) == done;
  }

  lemma PlanMore(total: nat, f: nat, n: nat)
    requires total < 0x1_0000_0000 && f < 0x10000
    ensures Plan(total, f, n + 1) == Plan(total, f, n) + [Entry(n, SectorAt(total, f, n))]
  {
  }

  /** Writes the sector with the next number; false when the disk refuses. */
  method WriteNext(disk: Disk, ghost start: seq<Entry>, total: nat, f: nat, lba: nat, sector: array<Octet>)
    returns (error: bool)
    requires total < 0x1_0000_0000 && f < 0x10000 && disk.log == start + Plan(total, f, lba)
             && sector[..] == SectorAt(total, f, lba)
    requires lba > 0 ==> 0 in disk.sectors && disk.sectors[0] == SectorAt(total, f, 0)
    modifies disk
    ensures disk.log == start + Plan(total, f, if error then lba else lba + 1)
    ensures !error || lba > 0 ==> 0 in disk.sectors && disk.sectors[0] == SectorAt(total, f, 0)
  {
    hide SectorAt, Plan;
    PlanMore(total, f, lba);
    error := disk.Write(lba, sector);
  }

  /** Blank sectors from one number up to another. */
  method WriteBlank(disk: Disk, ghost start: seq<Entry>, total: nat, f: nat, from: nat, to: nat, sector: array<Octet>)
    returns (error: bool, ghost done: nat)
    requires total < 0x1_0000_0000 && f < 0x10000 && 2 <= from <= to && sector[..] == ZerosOf(SECTOR)
    requires disk.log == start + Plan(total, f, from) && 0 in disk.sectors && disk.sectors[0] == SectorAt(total, f, 0)
    modifies disk
    ensures disk.log == start + Plan(total, f, done) && 0 in disk.sectors && disk.sectors[0] == SectorAt(total, f, 0)
    ensures if error then from <= done < to else done == to
  {
    hide Plan, ZerosOf;
    error, done := false, from;
    for lba := from to to
      invariant !error && done == lba
      invariant disk.log == start + Plan(total, f, lba) && 0 in disk.sectors && disk.sectors[0] == SectorAt(total, f, 0)
    {
      error := WriteNext(disk, start, total, f, lba, sector);
      if error {
        return;
      }
      done := lba + 1;
    }
  }

  /** One table: its first sector as it stands, the rest blank. */
  method WriteTable(disk: Disk, ghost start: seq<Entry>, total: nat, f: nat, base: nat, sector: array<Octet>)
    returns (code: nat, ghost done: nat)
    requires total < 0x1_0000_0000 && 1 <= f < 0x10000 && (base == 1 || base == 1 + f) && sector.Length == SECTOR
             && sector[..] == SectorAt(total, f, base)
    requires disk.log == start + Plan(total, f, base) && 0 in disk.sectors && disk.sectors[0] == SectorAt(total, f, 0)
    modifies disk, sector
    ensures disk.log == start + Plan(total, f, done) && 0 in disk.sectors && disk.sectors[0] == SectorAt(total, f, 0)
    ensures if code == 0 then done == base + f && sector[..] == ZerosOf(SECTOR)
            else base <= done < base + f && code == FailureCode(f, done)
  {
    hide Plan, ZerosOf, SectorAt;
    code, done := 0, base;
    var error := WriteNext(disk, start, total, f, base, sector);
    if error {
      code := 5;
      return;
    }
    Clear(sector);
    error, done := WriteBlank(disk, start, total, f, base + 1, base + f, sector);
    code := if error then 6 else 0;
  }

  /** Both tables; the second one starts with the sector that the first has left blank. */
  method WriteTables(disk: Disk, ghost start: seq<Entry>, total: nat, f: nat, sector: array<Octet>)
    returns (code: nat, ghost done: nat)
    requires total < 0x1_0000_0000 && 1 <= f < 0x10000 && sector.Length == SECTOR && sector[..] == TableHead()
    requires disk.log == start + Plan(total, f, 1) && 0 in disk.sectors && disk.sectors[0] == SectorAt(total, f, 0)
    modifies disk, sector
    ensures disk.log == start + Plan(total, f, done) && 0 in disk.sectors && disk.sectors[0] == SectorAt(total, f, 0)
    ensures if code == 0 then done == 1 + 2 * f && sector[..] == ZerosOf(SECTOR)
            else 1 <= done < 1 + 2 * f && code == FailureCode(f, done)
  {
    hide Plan, ZerosOf, TableHead, Boot;
    code, done := 0, 1;
    for i := 0 to 2
      invariant code == 0 && done == 1 + i * f
      invariant disk.log == start + Plan(total, f, done) && 0 in disk.sectors
                && disk.sectors[0] == SectorAt(total, f, 0)
      invariant sector[..] == if i == 0 then TableHead() else ZerosOf(SECTOR)
    {
      code, done := WriteTable(disk, start, total, f, 1 + i * f, sector);
      if code != 0 {
        return;
      }
    }
  }

  method MakeTableHead(sector: array<Octet>)
    requires sector.Length == SECTOR
    modifies sector
    ensures sector[..] == TableHead()
  {
    Clear(sector);
    sector[0] := 0xf8;
    sector[1] := 0xff;
    sector[2] := 0xff;
    sector[3] := 0xff;
  }

  /**
     fat16_format. The disk gets exactly a beginning of the planned writes, all of them when the result is 0; any other
     result tells how far it got.
     */
  method Format(disk: Disk, ahci: bool, frame: bool, total: nat) returns (code: nat, ghost done: nat)
    requires total < 0x1_0000_0000 && !Diverges(total)
    modifies disk
    ensures FatSize(total) <= 256
    ensures disk.log == old(disk.log) + Plan(total, FatSize(total), done)
    ensures !ahci ==> code == 1
    ensures ahci && FatSize(total) == 0 ==> code == 2
    ensures ahci && FatSize(total) != 0 && !frame ==> code == 3
    ensures code in {1, 2, 3} ==> done == 0
    ensures ahci && FatSize(total) != 0 && frame ==>
              if code == 0 then done == MetaSectors(FatSize(total))
              else done < MetaSectors(FatSize(total)) && code == FailureCode(FatSize(total), done)
    ensures code == 0 ==> 0 in disk.sectors && disk.sectors[0] == SectorAt(total, FatSize(total), 0)
  {
    hide FatSize, Plan, ZerosOf, TableHead, SectorAt, Diverges;
    SizesFit(total);
    PlanNone(disk.log, total, FatSize(total));
    done := 0;
    if !ahci {
      return 1, 0;
    }
    var f := ComputeFatSize(total);
    if f == 0 {
      return 2, 0;
    }
    if !frame {
      return 3, 0;
    }
    code, done := WriteVolume(disk, total, f);
  }

  lemma SizesFit(total: nat)
    requires total < 0x1_0000_0000 && !Diverges(total)
    ensures FatSize(total) <= 256
  {
    HaltsExactly(total);
    FatSizeIsRight(total);
  }

  lemma PlanNone(log: seq<Entry>, total: nat, f: nat)
    requires total < 0x1_0000_0000 && f < 0x10000
    ensures log + Plan(total, f, 0) == log
  {
  }

  method WriteVolume(disk: Disk, total: nat, f: nat) returns (code: nat, ghost done: nat)
    requires total < 0x1_0000_0000 && 1 <= f <= 256
    modifies disk
    ensures disk.log == old(disk.log) + Plan(total, f, done)
    ensures if code == 0 then done == MetaSectors(f) else done < MetaSectors(f) && code == FailureCode(f, done)
    ensures code == 0 ==> 0 in disk.sectors && disk.sectors[0] == SectorAt(total, f, 0)
  {
    hide Plan, ZerosOf, TableHead, Boot;
    ghost var start := disk.log;
    PlanNone(start, total, f);
    var sector := new Octet[SECTOR];
    Clear(sector);
    FillBoot(sector, total, f);
    code, done := 0, 0;
    var error := WriteNext(disk, start, total, f, 0, sector);
    if error {
      code := 4;
      return;
    }
    MakeTableHead(sector);
    code, done := WriteTables(disk, start, total, f, sector);
    if code != 0 {
      return;
    }
    Clear(sector);
    error, done := WriteBlank(disk, start, total, f, 1 + 2 * f, 1 + 2 * f + ROOT_SECTORS, sector);
    code := if error then 7 else 0;
  }

  // ----- mounting

  /** read_fat: nothing unless there is a frame, the right device, a sector that reads, and heap for the structure. */
  method ReadFat(disk: Disk, ahci: bool, frame: bool, heap: bool) returns (r: Option<Fat>, refused: bool)
    requires 0 in disk.sectors ==> |disk.sectors[0]| == SECTOR
    ensures r.Some? <==> ahci && frame && heap && !refused && 0 in disk.sectors
    ensures r.Some? ==> |disk.sectors[0]| == SECTOR && r.value == Decode(disk.sectors[0])
  {
    r, refused := None, false;
    if !frame || !ahci {
      return;
    }
    var sector;
    sector, refused := disk.Read(0);
    if sector.Some? && heap {
      r := Some(Decode(sector.value));
    }
  }

  /** Two volumes of the list never share a number. */
  ghost predicate DistinctVolumes(v: seq<Fat>) {
    forall i, j :: 0 <= i < j < |v| ==> v[i].volId != v[j].volId
  }

  class Mounts {
    var volumes: seq<Fat>

    constructor ()
      ensures volumes == []
    {
      volumes := [];
    }

    /** fat_list_find_vol_id. */
    method Find(volId: nat) returns (found: bool)
      ensures found <==> exists i :: 0 <= i < |volumes| && volumes[i].volId == volId
    {
      for i := 0 to |volumes|
        invariant forall j :: 0 <= j < i ==> volumes[j].volId != volId
      {
        if volumes[i].volId == volId {
          return true;
        }
      }
      return false;
    }

    /** fat16_init on the structure that was read; `heap` tells whether the list node can be allocated. */
    method Mount(read: Option<Fat>, heap: bool) returns (code: nat)
      requires DistinctVolumes(volumes)
      modifies this
      ensures DistinctVolumes(volumes)
      ensures code == 1 <==> read.None?
      ensures code == 2 <==> read.Some? && Validate(read.value) != 0
      ensures code == 3
              <==> read.Some? && Validate(read.value) == 0
                   && exists i :: 0 <= i < |old(volumes)| && old(volumes)[i].volId == read.value.volId
      ensures code in {0, 1, 2, 3, 4} && (code == 4 ==> !heap) && (code == 0 ==> read.Some? && heap)
      ensures volumes == if code == 0 then old(volumes) + [read.value] else old(volumes)
    {
      if read.None? {
        return 1;
      }
      if Validate(read.value) != 0 {
        return 2;
      }
      var known := Find(read.value.volId);
      if known {
        return 3;
      }
      if !heap {
        return 4;
      }
      volumes := volumes + [read.value];
      return 0;
    }
  }

  method MountTwice(disk: Disk, mounts: Mounts, ghost v: Fat)
    returns (first: bool, mounted: nat, second: bool, again: nat)
    requires mounts.volumes == [] && 0 in disk.sectors && |disk.sectors[0]| == SECTOR && Decode(disk.sectors[0]) == v
             && Validate(v) == 0
    modifies mounts
    ensures mounted == (if first then 0 else 1) && again == (if !second then 1 else if first then 3 else 0)
    ensures mounts.volumes == if first || second then [v] else []
  {
    hide Decode, Validate;
    var read, refused := ReadFat(disk, true, true, true);
    first := !refused;
    mounted := mounts.Mount(read, true);
    assert first ==> mounts.volumes[0].volId == v.volId;
    read, refused := ReadFat(disk, true, true, true);
    second := !refused;
    again := mounts.Mount(read, true);
  }

  /**
     A formatted disk mounts whenever it can be read, and once mounted it is refused as known.
     */
  method FormatAndMount(disk: Disk, mounts: Mounts, total: nat)
    returns (formatted: nat, first: bool, mounted: nat, second: bool, again: nat)
    requires total < 0x1_0000_0000 && !Diverges(total) && mounts.volumes == []
    modifies disk, mounts
    ensures formatted == 2 <==> total < 32745 || total >= 524235
    ensures formatted == 0 ==>
              mounted == (if first then 0 else 1) && again == (if !second then 1 else if first then 3 else 0)
    ensures formatted == 0 && (first || second) ==>
              FatSize(total) < 0x10000 && mounts.volumes == [NewVolume(total, FatSize(total))]
  {
    hide Decode, Validate, SectorAt, Diverges, FatSize, NewVolume;
    HaltsExactly(total);
    FatSizeIsRight(total);
    first, mounted, second, again := false, 0, false, 0;
    ghost var done: nat;
    formatted, done := Format(disk, true, true, total);
    if formatted == 0 {
      FormattedIsValid(total);
      first, mounted, second, again := MountTwice(disk, mounts, NewVolume(total, FatSize(total)));
    }
  }

}
