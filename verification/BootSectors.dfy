/** The packed boot sector of a FAT16 volume: its byte layout, and the checks made before mounting (fat16.c). */
module BootSectors {

  newtype Octet = x: int | 0 <= x < 0x100

  /** struct bpb and struct ebr. */
  datatype Fat = Fat(
    jump: seq<Octet>, oem: seq<Octet>, bps: nat, spc: nat, rsc: nat, numFats: nat, rec: nat, ts16: nat, media: nat,
    fatS: nat, spt: nat, heads: nat, hidden: nat, ts32: nat,
    drive: nat, r1: nat, bsig: nat, volId: nat, volLab: seq<Octet>, fType: seq<Octet>)

  const FAT_BYTES: nat := 62

  /** Every field fits the width that the structure gives it. */
  predicate Fits(f: Fat) {
    && |f.jump| == 3 && |f.oem| == 8 && f.bps < 0x10000 && f.spc < 0x100 && f.rsc < 0x10000 && f.numFats < 0x100
    && f.rec < 0x10000 && f.ts16 < 0x10000 && f.media < 0x100 && f.fatS < 0x10000 && f.spt < 0x10000
    && f.heads < 0x10000
    && f.hidden < 0x1_0000_0000 && f.ts32 < 0x1_0000_0000
    && f.drive < 0x100 && f.r1 < 0x100 && f.bsig < 0x100 && f.volId < 0x1_0000_0000 && |f.volLab| == 11
    && |f.fType| == 8
  }

  // ----- little-endian numbers

  function Le8(v: nat): (s: seq<Octet>)
    ensures |s| == 1
  {
    [(v % 0x100) as Octet]
  }

  function Le16(v: nat): (s: seq<Octet>)
    ensures |s| == 2
  {
    [(v % 0x100) as Octet, (v / 0x100 % 0x100) as Octet]
  }

  function Le32(v: nat): (s: seq<Octet>)
    ensures |s| == 4
  {
    Le16(v % 0x10000) + Le16(v / 0x10000)
  }

  function Read8(s: seq<Octet>, at: nat): (v: nat)
    requires at < |s|
    ensures v < 0x100
  {
    s[at] as nat
  }

  function Read16(s: seq<Octet>, at: nat): (v: nat)
    requires at + 2 <= |s|
    ensures v < 0x10000
  {
    s[at] as nat + 0x100 * s[at + 1] as nat
  }

  function Read32(s: seq<Octet>, at: nat): (v: nat)
    requires at + 4 <= |s|
    ensures v < 0x1_0000_0000
  {
    Read16(s, at) + 0x10000 * Read16(s, at + 2)
  }

  lemma Read16Le16(v: nat)
    requires v < 0x10000
    ensures Read16(Le16(v), 0) == v
  {
  }

  lemma Read32Le32(v: nat)
    requires v < 0x1_0000_0000
    ensures Read32(Le32(v), 0) == v
  {
    hide Le16, Read16;
    var s := Le32(v);
    Read16Le16(v % 0x10000);
    Read16Le16(v / 0x10000);
    ReadsInside(s, 0, Le16(v % 0x10000));
    ReadsInside(s, 2, Le16(v / 0x10000));
  }

  lemma ReadsInside(s: seq<Octet>, at: nat, part: seq<Octet>)
    requires at + |part| <= |s| && s[at..at + |part|] == part
    ensures |part| >= 1 ==> Read8(s, at) == Read8(part, 0)
    ensures |part| >= 2 ==> Read16(s, at) == Read16(part, 0)
    ensures |part| >= 4 ==> Read32(s, at) == Read32(part, 0)
  {
  }

  lemma Le16Read16(s: seq<Octet>, at: nat)
    requires at + 2 <= |s|
    ensures Le16(Read16(s, at)) == s[at..at + 2]
  {
  }

  lemma Le32Read32(s: seq<Octet>, at: nat)
    requires at + 4 <= |s|
    ensures Le32(Read32(s, at)) == s[at..at + 4]
  {
    hide Le16, Read16;
    Le16Read16(s, at);
    Le16Read16(s, at + 2);
    assert Read32(s, at) % 0x10000 == Read16(s, at) && Read32(s, at) / 0x10000 == Read16(s, at + 2);
  }

  // ----- the structure

  /** The structure as memory holds it. */
  function Encode(f: Fat): seq<Octet> {
    f.jump + f.oem + Le16(f.bps) + Le8(f.spc) + Le16(f.rsc) + Le8(f.numFats) + Le16(f.rec) + Le16(f.ts16)
      + Le8(f.media) +
    Le16(f.fatS) + Le16(f.spt) + Le16(f.heads) + Le32(f.hidden) + Le32(f.ts32) +
    Le8(f.drive) + Le8(f.r1) + Le8(f.bsig) + Le32(f.volId) + f.volLab + f.fType
  }

  /** memcpy of a sector into the packed structure. */
  function Decode(s: seq<Octet>): (f: Fat)
    requires |s| >= FAT_BYTES
    ensures Fits(f)
  {
    Fat(s[..3], s[3..11], Read16(s, 11), Read8(s, 13), Read16(s, 14), Read8(s, 16), Read16(s, 17), Read16(s, 19),
        Read8(s, 21),
        Read16(s, 22), Read16(s, 24), Read16(s, 26), Read32(s, 28), Read32(s, 32),
        Read8(s, 36), Read8(s, 37), Read8(s, 38), Read32(s, 39), s[43..54], s[54..62])
  }

  lemma EncodeLength(f: Fat)
    requires Fits(f)
    ensures |Encode(f)| == FAT_BYTES
  {
  }

  /** Where the encoding puts each field. */
  lemma EncodeParts(f: Fat, rest: seq<Octet>)
    requires Fits(f)
    ensures var s := Encode(f) + rest;
            && |s| == FAT_BYTES + |rest|
            && s[..3] == f.jump && s[3..11] == f.oem && s[11..13] == Le16(f.bps) && s[13..14] == Le8(f.spc)
            && s[14..16] == Le16(f.rsc)
            && s[16..17] == Le8(f.numFats) && s[17..19] == Le16(f.rec) && s[19..21] == Le16(f.ts16)
            && s[21..22] == Le8(f.media)
  {
    hide Encode, Le8, Le16, Le32;
    EncodeStart(f, rest);
    EncodeHead(f, rest);
  }

  lemma EncodeStart(f: Fat, rest: seq<Octet>)
    requires Fits(f)
    ensures var s := Encode(f) + rest;
            && |s| == FAT_BYTES + |rest|
            && s[..3] == f.jump && s[3..11] == f.oem && s[11..13] == Le16(f.bps) && s[13..14] == Le8(f.spc)
  {
    hide Le8, Le16, Le32;
  }

  lemma EncodeHead(f: Fat, rest: seq<Octet>)
    requires Fits(f)
    ensures var s := Encode(f) + rest;
            && |s| == FAT_BYTES + |rest|
            && s[14..16] == Le16(f.rsc)
            && s[16..17] == Le8(f.numFats) && s[17..19] == Le16(f.rec) && s[19..21] == Le16(f.ts16)
            && s[21..22] == Le8(f.media)
  {
    hide Le8, Le16, Le32;
  }

  lemma EncodeMoreParts(f: Fat, rest: seq<Octet>)
    requires Fits(f)
    ensures var s := Encode(f) + rest;
            && |s| == FAT_BYTES + |rest|
            && s[22..24] == Le16(f.fatS) && s[24..26] == Le16(f.spt) && s[26..28] == Le16(f.heads)
            && s[28..32] == Le32(f.hidden)
            && s[32..36] == Le32(f.ts32) && s[36..37] == Le8(f.drive) && s[37..38] == Le8(f.r1)
            && s[38..39] == Le8(f.bsig)
            && s[39..43] == Le32(f.volId) && s[43..54] == f.volLab && s[54..62] == f.fType
  {
    hide Le8, Le16, Le32;
  }

  /** Decoding undoes encoding, whatever follows in the sector. */
  lemma DecodeEncode(f: Fat, rest: seq<Octet>)
    requires Fits(f)
    ensures |Encode(f) + rest| >= FAT_BYTES && Decode(Encode(f) + rest) == f
  {
    hide Encode, Le8, Le16, Le32, Read8, Read16, Read32;
    EncodeParts(f, rest);
    EncodeMoreParts(f, rest);
    FrontFields(f, Encode(f) + rest);
    BackFields(f, Encode(f) + rest);
  }

  lemma Field8(s: seq<Octet>, at: nat, v: nat)
    requires v < 0x100 && at < |s| && s[at..at + 1] == Le8(v)
    ensures Read8(s, at) == v
  {
    ReadsInside(s, at, Le8(v));
  }

  lemma Field16(s: seq<Octet>, at: nat, v: nat)
    requires v < 0x10000 && at + 2 <= |s| && s[at..at + 2] == Le16(v)
    ensures Read16(s, at) == v
  {
    hide Le16, Read16;
    ReadsInside(s, at, Le16(v));
    Read16Le16(v);
  }

  lemma Field32(s: seq<Octet>, at: nat, v: nat)
    requires v < 0x1_0000_0000 && at + 4 <= |s| && s[at..at + 4] == Le32(v)
    ensures Read32(s, at) == v
  {
    hide Le32, Read32;
    ReadsInside(s, at, Le32(v));
    Read32Le32(v);
  }

  lemma FrontFields(f: Fat, s: seq<Octet>)
    requires Fits(f) && |s| >= FAT_BYTES
    requires s[11..13] == Le16(f.bps) && s[13..14] == Le8(f.spc) && s[14..16] == Le16(f.rsc)
    requires s[16..17] == Le8(f.numFats) && s[17..19] == Le16(f.rec) && s[19..21] == Le16(f.ts16)
             && s[21..22] == Le8(f.media)
    ensures Read16(s, 11) == f.bps && Read8(s, 13) == f.spc && Read16(s, 14) == f.rsc
    ensures Read8(s, 16) == f.numFats && Read16(s, 17) == f.rec && Read16(s, 19) == f.ts16 && Read8(s, 21) == f.media
  {
    hide Le8, Le16, Read8, Read16;
    Field16(s, 11, f.bps);
    Field8(s, 13, f.spc);
    Field16(s, 14, f.rsc);
    Field8(s, 16, f.numFats);
    Field16(s, 17, f.rec);
    Field16(s, 19, f.ts16);
    Field8(s, 21, f.media);
  }

  lemma BackFields(f: Fat, s: seq<Octet>)
    requires Fits(f) && |s| >= FAT_BYTES
    requires s[22..24] == Le16(f.fatS) && s[24..26] == Le16(f.spt) && s[26..28] == Le16(f.heads)
             && s[28..32] == Le32(f.hidden)
    requires s[32..36] == Le32(f.ts32) && s[36..37] == Le8(f.drive) && s[37..38] == Le8(f.r1)
             && s[38..39] == Le8(f.bsig)
    requires s[39..43] == Le32(f.volId)
    ensures Read16(s, 22) == f.fatS && Read16(s, 24) == f.spt && Read16(s, 26) == f.heads && Read32(s, 28) == f.hidden
    ensures Read32(s, 32) == f.ts32 && Read8(s, 36) == f.drive && Read8(s, 37) == f.r1 && Read8(s, 38) == f.bsig
    ensures Read32(s, 39) == f.volId
  {
    hide Le8, Le16, Le32, Read8, Read16, Read32;
    Field16(s, 22, f.fatS);
    Field16(s, 24, f.spt);
    Field16(s, 26, f.heads);
    Field32(s, 28, f.hidden);
    Field32(s, 32, f.ts32);
    Field8(s, 36, f.drive);
    Field8(s, 37, f.r1);
    Field8(s, 38, f.bsig);
    Field32(s, 39, f.volId);
  }

  /** Encoding undoes decoding: the structure keeps every one of the first 62 bytes. */
  lemma EncodeDecode(s: seq<Octet>)
    requires |s| >= FAT_BYTES
    ensures Encode(Decode(s)) == s[..FAT_BYTES]
  {
    hide Le8, Le16, Le32, Read8, Read16, Read32;
    DecodedFront(s);
    DecodedBack(s);
    var f := Decode(s);
    assert f.jump + f.oem + Le16(f.bps) + Le8(f.spc) + Le16(f.rsc) + Le8(f.numFats) + Le16(f.rec) + Le16(f.ts16)
             + Le8(f.media) == s[..22];
    assert s[..22] + Le16(f.fatS) + Le16(f.spt) + Le16(f.heads) + Le32(f.hidden) + Le32(f.ts32) == s[..36];
  }

  lemma Le8Read8(s: seq<Octet>, at: nat)
    requires at < |s|
    ensures Le8(Read8(s, at)) == s[at..at + 1]
  {
  }

  lemma DecodedFront(s: seq<Octet>)
    requires |s| >= FAT_BYTES
    ensures Le16(Read16(s, 11)) == s[11..13] && Le8(Read8(s, 13)) == s[13..14] && Le16(Read16(s, 14)) == s[14..16]
    ensures Le8(Read8(s, 16)) == s[16..17] && Le16(Read16(s, 17)) == s[17..19] && Le16(Read16(s, 19)) == s[19..21]
            && Le8(Read8(s, 21)) == s[21..22]
  {
    hide Le8, Le16, Read8, Read16;
    Le16Read16(s, 11);
    Le8Read8(s, 13);
    Le16Read16(s, 14);
    Le8Read8(s, 16);
    Le16Read16(s, 17);
    Le16Read16(s, 19);
    Le8Read8(s, 21);
  }

  lemma DecodedBack(s: seq<Octet>)
    requires |s| >= FAT_BYTES
    ensures Le16(Read16(s, 22)) == s[22..24] && Le16(Read16(s, 24)) == s[24..26] && Le16(Read16(s, 26)) == s[26..28]
            && Le32(Read32(s, 28)) == s[28..32]
    ensures Le32(Read32(s, 32)) == s[32..36] && Le8(Read8(s, 36)) == s[36..37] && Le8(Read8(s, 37)) == s[37..38]
            && Le8(Read8(s, 38)) == s[38..39]
    ensures Le32(Read32(s, 39)) == s[39..43]
  {
    hide Le8, Le16, Le32, Read8, Read16, Read32;
    Le16Read16(s, 22);
    Le16Read16(s, 24);
    Le16Read16(s, 26);
    Le32Read32(s, 28);
    Le32Read32(s, 32);
    Le8Read8(s, 36);
    Le8Read8(s, 37);
    Le8Read8(s, 38);
    Le32Read32(s, 39);
  }

  // ----- validation

  /** Bitwise and. */
  function And(a: nat, b: nat): nat
    decreases a
  {
    if a == 0 then 0 else (if a % 2 == 1 && b % 2 == 1 then 1 else 0) + 2 * And(a / 2, b / 2)
  }

  predicate IsPowerOfTwo(n: nat) {
    n == 1 || (n > 0 && n % 2 == 0 && IsPowerOfTwo(n / 2))
  }

  lemma {:induction false} AndSelf(n: nat)
    ensures And(n, n) == n
  {
    if n > 0 {
      AndSelf(n / 2);
    }
  }

  /** n & (n - 1) clears the lowest set bit: nothing is left exactly of a power of two. */
  lemma {:induction false} ClearLowestBit(n: nat)
    requires n > 0
    ensures And(n, n - 1) == 0 <==> IsPowerOfTwo(n)
  {
    if n % 2 == 0 {
      assert (n - 1) / 2 == n / 2 - 1;
      ClearLowestBit(n / 2);
    } else {
      assert (n - 1) / 2 == n / 2;
      AndSelf(n / 2);
    }
  }

  /** fat16_validate: 0, or the number of the first check that fails. */
  function Validate(f: Fat): nat {
    if f.bps < 512 || f.bps > 4096 || And(f.bps, f.bps - 1) != 0 then 1
    else if f.spc == 0 || And(f.spc, f.spc - 1) != 0 then 2
    else if f.rsc < 1 then 3
    else if f.numFats < 1 then 4
    else if f.fatS == 0 then 5
    else if f.ts16 == 0 && f.ts32 == 0 then 6
    else if f.bsig != 0x29 then 7
    else if f.volId == 0 then 8
    else 0
  }

  /** What passes validation. */
  lemma ValidExactly(f: Fat)
    ensures Validate(f) == 0 <==>
            && 512 <= f.bps <= 4096 && IsPowerOfTwo(f.bps) && IsPowerOfTwo(f.spc) && f.rsc >= 1 && f.numFats >= 1
            && f.fatS != 0
            && !(f.ts16 == 0 && f.ts32 == 0) && f.bsig == 0x29 && f.volId != 0
  {
    if f.bps > 0 {
      ClearLowestBit(f.bps);
    }
    if f.spc > 0 {
      ClearLowestBit(f.spc);
    }
  }

  /** The checks in their order. */
  predicate Passes(f: Fat, check: nat) {
    match check
    case 1 => 512 <= f.bps <= 4096 && IsPowerOfTwo(f.bps)
    case 2 => IsPowerOfTwo(f.spc)
    case 3 => f.rsc >= 1
    case 4 => f.numFats >= 1
    case 5 => f.fatS != 0
    case 6 => f.ts16 != 0 || f.ts32 != 0
    case 7 => f.bsig == 0x29
    case 8 => f.volId != 0
    case _ => true
  }

  /** The code is the number of the first check that fails. */
  lemma CodeIsFirst(f: Fat)
    ensures Validate(f) <= 8
    ensures Validate(f) != 0 ==> !Passes(f, Validate(f))
    ensures forall n: nat :: Validate(f) == 0 || n < Validate(f) ==> Passes(f, n)
  {
    hide IsPowerOfTwo, And;
    if f.bps > 0 {
      ClearLowestBit(f.bps);
    }
    PowerIsPositive();
    if f.spc > 0 {
      ClearLowestBit(f.spc);
    }
  }

  lemma PowerIsPositive()
    ensures !IsPowerOfTwo(0)
  {
  }
}
