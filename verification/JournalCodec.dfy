/**
 The 4096-byte page of one journal snapshot. Decoding succeeds exactly on the pages the encoder
 writes: the two are inverses of each other.
 */
module JournalCodec {
  import opened Bytes
  import opened JournalRules

  /** "OPNDCJ2" and a zero byte. */
  const MAGIC: seq<Byte> := [79, 80, 78, 68, 67, 74, 50, 0]
  /** "OPNDCT1", the name of the older record format. */
  const LEGACY: seq<Byte> := [79, 80, 78, 68, 67, 84, 49]

  /** The volume a journal belongs to: its digest and the blocks of its banks and of its map. */
  datatype Volume = Volume(digest: nat, control: seq<nat>, map_: seq<nat>)

  predicate VolumeOk(v: Volume) {
    && v.digest < Pow256(32) && |v.control| == 2 && |v.map_| == MAP_BLOCKS
    && (forall b :: 0 <= b < 2 ==> v.control[b] < 0x10000) && (forall i :: 0 <= i < MAP_BLOCKS ==> v.map_[i] < 0x10000)
  }

  /** The CRC and the SHA-256 of a body. */
  datatype Checks = Checks(crc: seq<Byte> -> nat, sha: seq<Byte> -> nat)

  ghost predicate ChecksOk(k: Checks) {
    forall b: seq<Byte> :: k.crc(b) < Pow256(4) && k.sha(b) < Pow256(32)
  }

  /** Widths of the fields between the magic and 84 reserved bytes, in three groups. */
  const NAMES: seq<nat> := [4, 4, 32, 8, 8, 32]
  const PLACE: seq<nat> := [4, 4, 4, 4, 4, 4, 4, 4]
  const LEASES: seq<nat> := [8, 4, 4, 4, 4, 8, 4, 4]
  const BLOCK: seq<nat> := [8, 8, 8, 4, 4]

  function TargetRow(v: Volume, s: Snapshot): nat
    requires VolumeOk(v)
  {
    if s.pendingKind != NO_LEASE && s.pendingSlot < MAP_BLOCKS then v.map_[s.pendingSlot] * 64 else NO_SLOT
  }

  function NameValues(v: Volume, s: Snapshot): (vs: seq<nat>)
    ensures |vs| == 6
  {
    [2, 256, v.digest, s.epoch, s.previousEpoch, s.previousDigest]
  }

  function PlaceValues(v: Volume, s: Snapshot): (vs: seq<nat>)
    requires VolumeOk(v)
    ensures |vs| == 8
  {
    [s.state, s.bank, s.slot, v.control[s.bank] * 64 + s.slot, 1 - s.bank,
     Bits(s.retired, 32), Bits(s.quarantine, 32), Bits(s.open, 32)]
  }

  function LeaseValues(v: Volume, s: Snapshot): (vs: seq<nat>)
    requires VolumeOk(v)
    ensures |vs| == 8
  {
    [s.highWater, s.pendingKind, s.pendingSlot, TargetRow(v, s), 0, s.pendingLease, 4096, 1280]
  }

  function BlockValues(b: Block): (vs: seq<nat>)
    ensures |vs| == |BLOCK|
  {
    [b.base, Bits(b.valid, 64), b.rangeSequence, b.consumed, 0]
  }

  function PackBlocks(t: seq<Block>): (b: seq<Byte>)
    ensures |b| == 32 * |t|
  {
    if t == [] then []
    else
      BlockTotal();
      Pack(BLOCK, BlockValues(t[0])) + PackBlocks(t[1..])
  }

  lemma TwoTotal(a: nat, b: nat)
    ensures Total([a, b]) == a + b
  {
    assert [a, b][1..] == [b] && [b][1..] == [];
    assert Total([b]) == b;
  }

  lemma FourTotal(a: nat, b: nat, c: nat, d: nat)
    ensures Total([a, b, c, d]) == a + b + c + d
  {
    TotalSplit([a, b], [c, d]);
    TwoTotal(a, b);
    TwoTotal(c, d);
    assert [a, b] + [c, d] == [a, b, c, d];
  }

  lemma BlockTotal()
    ensures Total(BLOCK) == 32
  {
    assert BLOCK == [8, 8, 8, 4] + [4];
    TotalSplit([8, 8, 8, 4], [4]);
    FourTotal(8, 8, 8, 4);
    assert Total([4]) == 4 by { assert [4][1..] == []; }
  }

  lemma NamesTotal()
    ensures Total(NAMES) == 88
  {
    assert NAMES == [4, 4, 32, 8] + [8, 32];
    TotalSplit([4, 4, 32, 8], [8, 32]);
    FourTotal(4, 4, 32, 8);
    TwoTotal(8, 32);
  }

  lemma PlaceTotal()
    ensures Total(PLACE) == 32
  {
    assert PLACE == [4, 4, 4, 4] + [4, 4, 4, 4];
    TotalSplit([4, 4, 4, 4], [4, 4, 4, 4]);
    FourTotal(4, 4, 4, 4);
  }

  lemma LeasesTotal()
    ensures Total(LEASES) == 40
  {
    assert LEASES == [8, 4, 4, 4] + [4, 8, 4, 4];
    TotalSplit([8, 4, 4, 4], [4, 8, 4, 4]);
    FourTotal(8, 4, 4, 4);
    FourTotal(4, 8, 4, 4);
  }

  // ----- The page ---------------------------------------------------------------------------------------

  /** The body up to the CRC field. */
  function Head(v: Volume, s: Snapshot): (b: seq<Byte>)
    requires VolumeOk(v)
    ensures |b| == 252
  {
    NamesTotal();
    PlaceTotal();
    LeasesTotal();
    MAGIC + Pack(NAMES, NameValues(v, s)) + Pack(PLACE, PlaceValues(v, s)) + Pack(LEASES, LeaseValues(v, s))
      + Filled(84, 0)
  }

  /** The body, with whatever stands in the CRC field. */
  function Body(v: Volume, s: Snapshot, crc: nat): (b: seq<Byte>)
    requires VolumeOk(v)
    ensures |b| == 1280
  {
    Head(v, s) + LE(4, crc) + PackBlocks(s.blocks)
  }

  function Sealed(k: Checks, v: Volume, s: Snapshot): (b: seq<Byte>)
    requires VolumeOk(v)
    ensures |b| == 1280
  {
    Body(v, s, k.crc(Body(v, s, 0)))
  }

  function Encode(k: Checks, v: Volume, s: Snapshot): (p: seq<Byte>)
    requires VolumeOk(v)
    ensures |p| == 4096
  {
    Sealed(k, v, s) + LE(32, k.sha(Sealed(k, v, s))) + Filled(2784, 0xff)
  }

  // ----- Decoding ---------------------------------------------------------------------------------------

  datatype Decoded = NotARecord | Conflict | Ok(root: Root)

  function RawBlocks(b: seq<Byte>, n: nat): (rs: seq<seq<nat>>)
    requires |b| == 32 * n
    ensures |rs| == n && forall i :: 0 <= i < n ==> |rs[i]| == |BLOCK|
  {
    if n == 0 then []
    else
      BlockTotal();
      [Unpack(BLOCK, b[..32])] + RawBlocks(b[32..], n - 1)
  }

  function BlockOf(r: seq<nat>): Block
    requires |r| == |BLOCK| && r[1] < Pow2(64)
  {
    Block(r[0], Members(r[1], 64), r[2], r[3])
  }

  /** The raw values of a page's fields. */
  datatype Raw = Raw(names: seq<nat>, place: seq<nat>, leases: seq<nat>, blocks: seq<seq<nat>>)

  predicate RawOk(r: Raw) {
    && Fits(NAMES, r.names) && Fits(PLACE, r.place) && Fits(LEASES, r.leases)
    && |r.blocks| == MAP_BLOCKS && (forall i :: 0 <= i < MAP_BLOCKS ==> Fits(BLOCK, r.blocks[i]))
    && r.place[5] < Pow2(32) && r.place[6] < Pow2(32) && r.place[7] < Pow2(32)
    && (forall i :: 0 <= i < MAP_BLOCKS ==> r.blocks[i][1] < Pow2(64))
  }

  /** Every field that the caller already knows. */
  predicate Fixed(v: Volume, bank: BankIndex, slot: nat, r: Raw)
    requires VolumeOk(v) && RawOk(r)
  {
    && r.names[2] == v.digest && r.place[1] == bank && r.place[2] == slot && r.place[3] == v.control[bank] * 64 + slot
    && r.place[4] == 1 - bank && r.leases[4] == 0 && r.leases[6] == 4096 && r.leases[7] == 1280
    && forall i :: 0 <= i < MAP_BLOCKS ==> r.blocks[i][4] == 0
  }

  function SnapshotOf(bank: BankIndex, slot: nat, r: Raw): Snapshot
    requires RawOk(r)
  {
    Snapshot(r.names[3], r.names[4], r.names[5], r.place[0], bank, slot,
             Members(r.place[5], 32), Members(r.place[6], 32), Members(r.place[7], 32),
             r.leases[0], r.leases[1], r.leases[2], r.leases[5],
             seq(MAP_BLOCKS, i requires 0 <= i < MAP_BLOCKS => BlockOf(r.blocks[i])))
  }

  lemma RawIsOk(names: seq<nat>, place: seq<nat>, leases: seq<nat>, blocks: seq<seq<nat>>)
    requires Fits(NAMES, names) && Fits(PLACE, place) && Fits(LEASES, leases)
    requires |blocks| == MAP_BLOCKS && (forall i :: 0 <= i < MAP_BLOCKS ==> Fits(BLOCK, blocks[i]))
    ensures RawOk(Raw(names, place, leases, blocks))
  {
    PowerValues();
    assert PLACE[5] == 4 && PLACE[6] == 4 && PLACE[7] == 4 && BLOCK[1] == 8;
  }

  lemma {:induction false} RawBlocksFit(b: seq<Byte>, n: nat)
    requires |b| == 32 * n
    ensures forall i :: 0 <= i < n ==> Fits(BLOCK, RawBlocks(b, n)[i])
  {
    hide Fits, Unpack, Total;
    if n > 0 {
      BlockTotal();
      PackOfUnpack(BLOCK, b[..32]);
      RawBlocksFit(b[32..], n - 1);
      var rs := RawBlocks(b, n);
      forall i | 0 <= i < n ensures Fits(BLOCK, rs[i]) {
        if i > 0 { assert rs[i] == RawBlocks(b[32..], n - 1)[i - 1]; }
      }
    }
  }

  function RawOf(p: seq<Byte>): (r: Raw)
    requires |p| == 4096
    ensures RawOk(r)
  {
    NamesTotal();
    PlaceTotal();
    LeasesTotal();
    PackOfUnpack(NAMES, p[8..96]);
    PackOfUnpack(PLACE, p[96..128]);
    PackOfUnpack(LEASES, p[128..168]);
    RawBlocksFit(p[256..1280], MAP_BLOCKS);
    RawIsOk(Unpack(NAMES, p[8..96]), Unpack(PLACE, p[96..128]), Unpack(LEASES, p[128..168]),
      RawBlocks(p[256..1280], MAP_BLOCKS));
    Raw(Unpack(NAMES, p[8..96]), Unpack(PLACE, p[96..128]), Unpack(LEASES, p[128..168]),
      RawBlocks(p[256..1280], MAP_BLOCKS))
  }

  /** The body with its CRC field cleared, as the CRC sees it. */
  function Cleared(p: seq<Byte>): seq<Byte>
    requires |p| == 4096
  {
    p[..252] + Filled(4, 0) + p[256..1280]
  }

  function Decode(k: Checks, v: Volume, bank: BankIndex, slot: nat, p: seq<Byte>): Decoded
    requires VolumeOk(v) && |p| == 4096
  {
    var r := RawOf(p);
    if p[..7] == LEGACY then Conflict
    else if p[..8] != MAGIC || r.names[0] != 2 || r.names[1] != 256 || Num(p[252..256]) != k.crc(Cleared(p))
            || p[1312..] != Filled(2784, 0xff) then NotARecord
    else if Num(p[1280..1312]) != k.sha(p[..1280]) then NotARecord
    else if !Fixed(v, bank, slot, r) || p[168..252] != Filled(84, 0) then Conflict
    else
      var s := SnapshotOf(bank, slot, r);
      if Syntax(s) && r.leases[3] == TargetRow(v, s) then Ok(Root(s, k.sha(p[..1280]))) else Conflict
  }

  // ----- A page that decodes is the page that would be written -------------------------------------------

  lemma {:induction false} RawBlocksBack(b: seq<Byte>, n: nat, t: seq<Block>)
    requires |b| == 32 * n && |t| == n
    requires forall i :: 0 <= i < n ==> BlockValues(t[i]) == RawBlocks(b, n)[i]
    ensures PackBlocks(t) == b
  {
    if n > 0 {
      BlockTotal();
      PackOfUnpack(BLOCK, b[..32]);
      var rs := RawBlocks(b, n);
      forall i | 0 <= i < n - 1 ensures BlockValues(t[1..][i]) == RawBlocks(b[32..], n - 1)[i] {
        assert rs[i + 1] == RawBlocks(b[32..], n - 1)[i] && t[1..][i] == t[i + 1];
      }
      RawBlocksBack(b[32..], n - 1, t[1..]);
      assert BlockValues(t[0]) == rs[0];
      assert b[..32] + b[32..] == b;
    } else {
      assert b == [];
    }
  }

  lemma BlocksBack(v: Volume, bank: BankIndex, slot: nat, p: seq<Byte>)
    requires VolumeOk(v) && |p| == 4096 && Fixed(v, bank, slot, RawOf(p))
    ensures PackBlocks(SnapshotOf(bank, slot, RawOf(p)).blocks) == p[256..1280]
  {
    var r := RawOf(p);
    var t := SnapshotOf(bank, slot, r).blocks;
    forall i | 0 <= i < MAP_BLOCKS ensures BlockValues(t[i]) == r.blocks[i] {
      BitsOfMembers(r.blocks[i][1], 64);
      assert t[i] == BlockOf(r.blocks[i]);
    }
    RawBlocksBack(p[256..1280], MAP_BLOCKS, t);
  }

  lemma NamesBack(v: Volume, bank: BankIndex, slot: nat, r: Raw)
    requires VolumeOk(v) && RawOk(r) && Fixed(v, bank, slot, r) && r.names[0] == 2 && r.names[1] == 256
    ensures NameValues(v, SnapshotOf(bank, slot, r)) == r.names
  {
    assert |r.names| == 6;
  }

  lemma PlaceBack(v: Volume, bank: BankIndex, slot: nat, r: Raw)
    requires VolumeOk(v) && RawOk(r) && Fixed(v, bank, slot, r)
    ensures PlaceValues(v, SnapshotOf(bank, slot, r)) == r.place
  {
    BitsOfMembers(r.place[5], 32);
    BitsOfMembers(r.place[6], 32);
    BitsOfMembers(r.place[7], 32);
    assert |r.place| == 8;
  }

  lemma LeasesBack(v: Volume, bank: BankIndex, slot: nat, r: Raw)
    requires VolumeOk(v) && RawOk(r) && Fixed(v, bank, slot, r)
      && r.leases[3] == TargetRow(v, SnapshotOf(bank, slot, r))
    ensures LeaseValues(v, SnapshotOf(bank, slot, r)) == r.leases
  {
    assert |r.leases| == 8;
  }

  lemma HeadBack(v: Volume, bank: BankIndex, slot: nat, p: seq<Byte>, s: Snapshot)
    requires VolumeOk(v) && |p| == 4096 && Fixed(v, bank, slot, RawOf(p)) && p[..8] == MAGIC
      && p[168..252] == Filled(84, 0)
    requires RawOf(p).names[0] == 2 && RawOf(p).names[1] == 256
    requires s == SnapshotOf(bank, slot, RawOf(p)) && RawOf(p).leases[3] == TargetRow(v, s)
    ensures Head(v, s) == p[..252]
  {
    hide NameValues, PlaceValues, LeaseValues, SnapshotOf, Fixed, Pack, Unpack, Fits, Total, TargetRow;
    var r := RawOf(p);
    NamesBack(v, bank, slot, r);
    PlaceBack(v, bank, slot, r);
    LeasesBack(v, bank, slot, r);
    NamesTotal();
    PlaceTotal();
    LeasesTotal();
    PackOfUnpack(NAMES, p[8..96]);
    PackOfUnpack(PLACE, p[96..128]);
    PackOfUnpack(LEASES, p[128..168]);
    CutFive(p, 8, 96, 128, 168, 252);
  }

  /** What a page decodes to is what it would be encoded from: no two pages say the same, and no page
      says anything in a second way. */
  lemma {:induction false} DecodedIsCanonical(k: Checks, v: Volume, bank: BankIndex, slot: nat, p: seq<Byte>)
    requires VolumeOk(v) && |p| == 4096 && Decode(k, v, bank, slot, p).Ok?
    ensures var root := Decode(k, v, bank, slot, p).root;
      && p == Encode(k, v, root.snap) && Syntax(root.snap) && root.snap.bank == bank && root.snap.slot == slot
      && root.digest == k.sha(Sealed(k, v, root.snap))
  {
    hide Syntax, SnapshotOf, Fixed, TargetRow, Head, PackBlocks, RawOf, LE, Num, RawOk, VolumeOk;
    var r := RawOf(p);
    var s := SnapshotOf(bank, slot, r);
    SnapshotPlace(bank, slot, r);
    HeadBack(v, bank, slot, p, s);
    BlocksBack(v, bank, slot, p);
    FourZeros();
    assert Cleared(p) == Body(v, s, 0);
    LEOfNum(p[252..256]);
    assert p[..1280] == p[..252] + p[252..256] + p[256..1280];
    assert p[..1280] == Sealed(k, v, s);
    LEOfNum(p[1280..1312]);
    assert p == p[..1280] + p[1280..1312] + p[1312..];
  }

  lemma SnapshotPlace(bank: BankIndex, slot: nat, r: Raw)
    requires RawOk(r)
    ensures SnapshotOf(bank, slot, r).bank == bank && SnapshotOf(bank, slot, r).slot == slot
  {
  }

  lemma FourZeros()
    ensures LE(4, 0) == Filled(4, 0)
  {
    assert LE(4, 0) == [0] + LE(3, 0) && LE(3, 0) == [0] + LE(2, 0) && LE(2, 0) == [0] + LE(1, 0)
      && LE(1, 0) == [0] + LE(0, 0);
  }

  // ----- A page that was written decodes to what was written ---------------------------------------------

  /** The snapshot's fields fit the C struct. */
  predicate Sized(s: Snapshot) {
    && s.previousDigest < Pow256(32) && s.highWater <= U64_MAX
    && (forall i :: i in s.retired + s.quarantine + s.open ==> i < 32)
    && (forall i :: 0 <= i < MAP_BLOCKS ==> forall x :: x in s.blocks[i].valid ==> x < 64)
  }

  lemma NamesFit(v: Volume, s: Snapshot)
    requires VolumeOk(v) && Syntax(s) && Sized(s)
    ensures Fits(NAMES, NameValues(v, s))
  {
    PowerValues();
  }

  lemma PlaceFits(v: Volume, s: Snapshot)
    requires VolumeOk(v) && Syntax(s) && Sized(s)
    ensures Fits(PLACE, PlaceValues(v, s))
  {
    PowerValues();
  }

  lemma LeasesFit(v: Volume, s: Snapshot)
    requires VolumeOk(v) && Syntax(s) && Sized(s)
    ensures Fits(LEASES, LeaseValues(v, s))
  {
    PowerValues();
    if s.pendingKind != NO_LEASE { assert BlockSyntax(s, s.pendingSlot); }
  }

  lemma BlockFits(s: Snapshot, i: nat)
    requires Syntax(s) && Sized(s) && i < MAP_BLOCKS
    ensures Fits(BLOCK, BlockValues(s.blocks[i]))
  {
    PowerValues();
    assert BlockSyntax(s, i);
  }

  lemma {:induction false} RawOfBlocks(t: seq<Block>)
    requires forall i :: 0 <= i < |t| ==> Fits(BLOCK, BlockValues(t[i]))
    ensures RawBlocks(PackBlocks(t), |t|) == seq(|t|, i requires 0 <= i < |t| => BlockValues(t[i]))
  {
    hide Fits, BlockValues;
    if t != [] {
      BlockTotal();
      var b := PackBlocks(t);
      UnpackOfPack(BLOCK, BlockValues(t[0]));
      RawOfBlocks(t[1..]);
      assert b[..32] == Pack(BLOCK, BlockValues(t[0])) && b[32..] == PackBlocks(t[1..]);
      var rest := RawBlocks(b[32..], |t| - 1);
      forall i | 0 <= i < |t| ensures RawBlocks(b, |t|)[i] == BlockValues(t[i]) {
        if i > 0 { assert RawBlocks(b, |t|)[i] == rest[i - 1] && t[1..][i - 1] == t[i]; }
      }
    }
  }

  function Values(v: Volume, s: Snapshot): Raw
    requires VolumeOk(v)
  {
    Raw(NameValues(v, s), PlaceValues(v, s), LeaseValues(v, s),
      seq(MAP_BLOCKS, i requires 0 <= i < MAP_BLOCKS => BlockValues(s.blocks[i])))
  }

  lemma HeadParts(v: Volume, s: Snapshot)
    requires VolumeOk(v)
    ensures var h := Head(v, s);
      && h[..8] == MAGIC && h[8..96] == Pack(NAMES, NameValues(v, s)) && h[96..128] == Pack(PLACE, PlaceValues(v, s))
      && h[128..168] == Pack(LEASES, LeaseValues(v, s)) && h[168..252] == Filled(84, 0)
  {
    hide NameValues, PlaceValues, LeaseValues, Pack, Total;
    NamesTotal();
    PlaceTotal();
    LeasesTotal();
  }

  lemma PageParts(k: Checks, v: Volume, s: Snapshot)
    requires VolumeOk(v)
    ensures var p := Encode(k, v, s); var body := Sealed(k, v, s);
      && p[..252] == Head(v, s) && p[252..256] == LE(4, k.crc(Body(v, s, 0))) && p[256..1280] == PackBlocks(s.blocks)
      && p[..1280] == body && p[1280..1312] == LE(32, k.sha(body)) && p[1312..] == Filled(2784, 0xff)
      && Cleared(p) == Body(v, s, 0)
  {
    hide Head, PackBlocks, LE;
    var p := Encode(k, v, s);
    FourZeros();
    assert p[..1280] == Sealed(k, v, s);
    assert p[..252] == p[..1280][..252] && p[252..256] == p[..1280][252..256] && p[256..1280] == p[..1280][256..1280];
  }

  lemma RawOfEncoded(k: Checks, v: Volume, s: Snapshot, p: seq<Byte>)
    requires VolumeOk(v) && Syntax(s) && Sized(s) && p == Encode(k, v, s)
    ensures RawOf(p) == Values(v, s)
  {
    hide NameValues, PlaceValues, LeaseValues, BlockValues, Pack, Unpack, Fits, Syntax, Sized, Encode, Head, PackBlocks,
         RawBlocks, RawOk;
    HeadParts(v, s);
    PageParts(k, v, s);
    NamesFit(v, s);
    PlaceFits(v, s);
    LeasesFit(v, s);
    UnpackOfPack(NAMES, NameValues(v, s));
    UnpackOfPack(PLACE, PlaceValues(v, s));
    UnpackOfPack(LEASES, LeaseValues(v, s));
    forall i | 0 <= i < MAP_BLOCKS ensures Fits(BLOCK, BlockValues(s.blocks[i])) { BlockFits(s, i); }
    RawOfBlocks(s.blocks);
    assert p[8..96] == p[..252][8..96] && p[96..128] == p[..252][96..128] && p[128..168] == p[..252][128..168];
  }

  lemma SnapshotBack(v: Volume, s: Snapshot, r: Raw)
    requires VolumeOk(v) && Syntax(s) && Sized(s) && RawOk(r) && r == Values(v, s)
    ensures Fixed(v, s.bank, s.slot, r) && SnapshotOf(s.bank, s.slot, r) == s
  {
    hide RawOk, Syntax;
    var all := s.retired + s.quarantine + s.open;
    assert s.retired <= all && s.quarantine <= all && s.open <= all;
    MembersOfAll(s.retired, 32);
    MembersOfAll(s.quarantine, 32);
    MembersOfAll(s.open, 32);
    forall i | 0 <= i < MAP_BLOCKS ensures BlockOf(r.blocks[i]) == s.blocks[i] {
      MembersOfAll(s.blocks[i].valid, 64);
    }
    assert SnapshotOf(s.bank, s.slot, r).blocks == s.blocks;
  }

  /** The page looks like a record of this journal. */
  predicate Plain(k: Checks, p: seq<Byte>)
    requires |p| == 4096
  {
    && p[..7] != LEGACY && p[..8] == MAGIC && RawOf(p).names[0] == 2 && RawOf(p).names[1] == 256
    && Num(p[252..256]) == k.crc(Cleared(p)) && p[1312..] == Filled(2784, 0xff)
    && Num(p[1280..1312]) == k.sha(p[..1280]) && p[168..252] == Filled(84, 0)
  }

  lemma EncodedIsPlain(k: Checks, v: Volume, s: Snapshot, p: seq<Byte>)
    requires VolumeOk(v) && ChecksOk(k) && Syntax(s) && Sized(s) && p == Encode(k, v, s)
    ensures Plain(k, p) && RawOf(p) == Values(v, s) && k.sha(p[..1280]) == k.sha(Sealed(k, v, s))
  {
    hide Syntax, Sized, RawOf, Encode, Sealed, Body, Cleared, NameValues, PlaceValues, LeaseValues, Head, PackBlocks,
         LE, Num, Pack, RawOk;
    RawOfEncoded(k, v, s, p);
    PageParts(k, v, s);
    HeadParts(v, s);
    Versions(v, s);
    assert p[..7] == p[..252][..8][..7] && p[..8] == p[..252][..8] && p[168..252] == p[..252][168..252];
    assert MAGIC[5] != LEGACY[5];
    NumOfLE(4, k.crc(Body(v, s, 0)));
    NumOfLE(32, k.sha(Sealed(k, v, s)));
  }

  /** Whatever the journal may write, it reads back: the snapshot, in its place, with its digest. */
  lemma {:induction false} EncodedDecodes(k: Checks, v: Volume, s: Snapshot)
    requires VolumeOk(v) && ChecksOk(k) && Syntax(s) && Sized(s)
    ensures Decode(k, v, s.bank, s.slot, Encode(k, v, s)) == Ok(Root(s, k.sha(Sealed(k, v, s))))
  {
    hide Syntax, Sized, SnapshotOf, Fixed, TargetRow, RawOf, Encode, Sealed, Body, Cleared, NameValues, PlaceValues,
         Num, RawOk, ChecksOk, VolumeOk;
    var p := Encode(k, v, s);
    EncodedIsPlain(k, v, s, p);
    SnapshotBack(v, s, RawOf(p));
  }

  lemma Versions(v: Volume, s: Snapshot)
    ensures NameValues(v, s)[0] == 2 && NameValues(v, s)[1] == 256
  {
  }

  /** Two snapshots never share a page. */
  lemma EncodingIsInjective(k: Checks, v: Volume, a: Snapshot, b: Snapshot)
    requires VolumeOk(v) && ChecksOk(k) && Syntax(a) && Sized(a) && Syntax(b) && Sized(b)
    requires Encode(k, v, a) == Encode(k, v, b)
    ensures a == b
  {
    hide Syntax, Sized, Decode, Encode, NameValues, LeaseValues, BlockValues;
    RawOfEncoded(k, v, a, Encode(k, v, a));
    RawOfEncoded(k, v, b, Encode(k, v, b));
    PlacesEncoded(v, a);
    PlacesEncoded(v, b);
    EncodedDecodes(k, v, a);
    EncodedDecodes(k, v, b);
  }

  /** Bank and slot are among the encoded values. */
  lemma PlacesEncoded(v: Volume, s: Snapshot)
    requires VolumeOk(v)
    ensures Values(v, s).place[1] == s.bank && Values(v, s).place[2] == s.slot
  {
    hide NameValues, LeaseValues, BlockValues;
  }

  /** At any other place than its own a snapshot's page is a conflict. */
  lemma EncodedElsewhere(k: Checks, v: Volume, s: Snapshot, bank: BankIndex, slot: nat)
    requires VolumeOk(v) && ChecksOk(k) && Syntax(s) && Sized(s) && (bank != s.bank || slot != s.slot)
    ensures Decode(k, v, bank, slot, Encode(k, v, s)).Conflict?
  {
    hide Syntax, Sized, SnapshotOf, TargetRow, RawOf, Encode, Sealed, Body, Cleared, NameValues, LeaseValues,
         BlockValues, Num, RawOk, ChecksOk, VolumeOk;
    EncodedIsPlain(k, v, s, Encode(k, v, s));
    PlacesEncoded(v, s);
  }

  /** A page without the journal's first letter, an erased one for example, is no record. */
  lemma ForeignIsNoRecord(k: Checks, v: Volume, bank: BankIndex, slot: nat, p: seq<Byte>)
    requires VolumeOk(v) && |p| == 4096 && p[0] != MAGIC[0]
    ensures Decode(k, v, bank, slot, p).NotARecord?
  {
    hide RawOf, Num, Cleared, Fixed, SnapshotOf, Syntax;
    assert p[..7][0] == p[0] && p[..8][0] == p[0] && LEGACY[0] == MAGIC[0];
  }

  /** The journal's name and version, a sum and a digest that hold, and nothing behind them. */
  predicate Framed(k: Checks, p: seq<Byte>)
    requires |p| == 4096
  {
    && p[..8] == MAGIC && Num(p[8..12]) == 2 && Num(p[12..16]) == 256 && Num(p[252..256]) == k.crc(Cleared(p))
    && p[1312..] == Filled(2784, 0xff) && Num(p[1280..1312]) == k.sha(p[..1280])
  }

  /** What is passed over at any place: exactly the pages that are neither the legacy journal's nor framed. */
  lemma NoRecordIff(k: Checks, v: Volume, bank: BankIndex, slot: nat, p: seq<Byte>)
    requires VolumeOk(v) && |p| == 4096
    ensures Decode(k, v, bank, slot, p).NotARecord? <==> p[..7] != LEGACY && !Framed(k, p)
  {
    hide Num, Cleared, Fixed, SnapshotOf, Syntax, RawOf;
    RawVersions(p);
  }

  lemma RawVersions(p: seq<Byte>)
    requires |p| == 4096
    ensures RawOf(p).names[0] == Num(p[8..12]) && RawOf(p).names[1] == Num(p[12..16])
  {
    hide Num, RawBlocks, Fits, RawOk, Unpack;
    NamesTotal();
    UnpackTwo(NAMES, p[8..96]);
    VersionSlices(p);
    assert RawOf(p).names == Unpack(NAMES, p[8..96]);
  }

  lemma VersionSlices(p: seq<Byte>)
    requires |p| == 4096
    ensures p[8..96][..4] == p[8..12] && p[8..96][4..8] == p[12..16]
  {
    SubSlice(p, 8, 96, 0, 4);
    SubSlice(p, 8, 96, 4, 8);
  }

  lemma UnpackTwo(ws: seq<nat>, b: seq<Byte>)
    requires |ws| >= 2 && |b| == Total(ws)
    ensures |b| >= ws[0] + ws[1] && Unpack(ws, b)[0] == Num(b[..ws[0]])
      && Unpack(ws, b)[1] == Num(b[ws[0]..ws[0] + ws[1]])
  {
    hide Num;
    var c := b[ws[0]..];
    UnpackFirst(ws, b);
    UnpackFirst(ws[1..], c);
    assert c[..ws[1]] == b[ws[0]..ws[0] + ws[1]];
  }

  lemma UnpackFirst(ws: seq<nat>, b: seq<Byte>)
    requires ws != [] && |b| == Total(ws)
    ensures Unpack(ws, b) == [Num(b[..ws[0]])] + Unpack(ws[1..], b[ws[0]..])
  {
    hide Num;
  }
}
