/**
 One control record and its 4096-byte page. A page validates at a place exactly when the builder would
 write it for a well-formed record of that place; building and validating are inverses of each other.
 */
module ControlRecord {
  import opened Bytes
  import P = OwnedPage

  const SLOTS: nat := 64
  const SEQUENCE_MAX: nat := 0x7FFF_FFFF_FFFF_FFFF
  const NO_TARGET: nat := 0xFFFF_FFFF
  const PAGE_BYTES: nat := 4096
  const HEADER_BYTES: nat := 192

  /** "OPNDCT1" and a zero byte. */
  const MAGIC: seq<Byte> := [79, 80, 78, 68, 67, 84, 49, 0]

  datatype Phase = Provisioning | Active | ReadOnly
  datatype Lease = NoLease | EraseBlock | ProgramPage
  datatype Resolution = Unresolved | VerifiedComplete | AbandonedRetired

  /** The volume a history belongs to: the digest of its descriptor and the blocks it uses for control
      records and for data; and the digest provider. */
  datatype Volume = Volume(descriptor: seq<Byte>, control: seq<nat>, map_: seq<nat>, hash: P.Provider)

  predicate VolumeOk(v: Volume) {
    && |v.descriptor| == 32 && |v.control| == 2 && |v.map_| == 32
    && (forall b :: 0 <= b < 2 ==> v.control[b] < 0x10000) && (forall i :: 0 <= i < 32 ==> v.map_[i] < 0x10000)
  }

  datatype Record = Record(
    sequence: nat, previousSequence: nat, previousDigest: seq<Byte>,
    phase: Phase, lease: Lease, leaseId: nat, mapSlot: nat, page: nat, targetRow: nat,
    bank: nat, slot: nat, row: nat, retiredMap: set<nat>, retiredControl: set<nat>,
    resolution: Resolution, resolvedId: nat, highWater: nat)

  predicate RecordValid(r: Record, v: Volume)
    requires VolumeOk(v)
  {
    && 1 <= r.sequence <= SEQUENCE_MAX && r.previousSequence <= SEQUENCE_MAX
    && r.bank < 2 && r.slot < SLOTS && r.retiredControl <= {0, 1}
    && r.row == v.control[r.bank] * SLOTS + r.slot
    && (if r.sequence == 1 then
          r.previousSequence == 0 && P.AllAre(r.previousDigest, 0) && r.phase.Provisioning? && r.lease.NoLease?
          && r.highWater == 0 && r.resolvedId == 0 && r.resolution.Unresolved?
        else r.previousSequence == r.sequence - 1 && !P.AllAre(r.previousDigest, 0) && !P.AllAre(r.previousDigest, 255))
    && if r.lease.NoLease? then
         && r.leaseId == 0 && r.mapSlot == NO_TARGET && r.page == NO_TARGET && r.targetRow == NO_TARGET
         && if r.resolution.Unresolved? then r.resolvedId == 0
            else
              && r.resolvedId != 0 && r.resolvedId == r.highWater
              && (r.resolution.AbandonedRetired? ==> r.phase.ReadOnly?)
       else
         && r.leaseId != 0 && r.leaseId == r.highWater && r.resolution.Unresolved? && r.resolvedId == 0
         && r.mapSlot < 32 && r.page < 64 && (r.lease.EraseBlock? ==> r.page == 0)
         && r.targetRow == v.map_[r.mapSlot] * 64 + r.page
         && (r.mapSlot in r.retiredMap ==> r.phase.ReadOnly?)
  }

  /** What the widths of the C struct allow beyond a valid record's own bounds. */
  predicate Sized(r: Record) {
    && |r.previousDigest| == 32 && r.highWater < 0x1_0000_0000_0000_0000 && forall i :: i in r.retiredMap ==> i < 32
  }

  // ----- What the builder writes ------------------------------------------------------------------------

  function PhaseCode(p: Phase): nat { if p.Provisioning? then 1 else if p.Active? then 2 else 3 }

  function LeaseCode(l: Lease): nat { if l.NoLease? then 0 else if l.EraseBlock? then 1 else 2 }

  function ResolutionCode(x: Resolution): nat { if x.Unresolved? then 0 else if x.VerifiedComplete? then 1 else 2 }

  function Names(v: Volume, r: Record): (b: seq<Byte>)
    requires |v.descriptor| == 32 && |r.previousDigest| == 32
    ensures |b| == 96
  {
    MAGIC + LE(4, 1) + LE(4, HEADER_BYTES) + v.descriptor + LE(8, r.sequence) + LE(8, r.previousSequence)
      + r.previousDigest
  }

  function Place(r: Record): (b: seq<Byte>)
    ensures |b| == 40
  {
    LE(4, PhaseCode(r.phase)) + LE(4, LeaseCode(r.lease)) + LE(8, r.leaseId) + LE(4, r.mapSlot) + LE(4, r.page)
    + LE(4, r.targetRow) + LE(4, r.bank) + LE(4, r.slot) + LE(4, r.row)
  }

  function Ending(r: Record): (b: seq<Byte>)
    ensures |b| == 32
  {
    LE(4, Bits(r.retiredMap, 32)) + LE(4, Bits(r.retiredControl, 32)) + LE(4, ResolutionCode(r.resolution))
    + LE(8, r.resolvedId) + LE(8, r.highWater) + LE(4, PAGE_BYTES)
  }

  function Header(v: Volume, r: Record, sum: nat): (b: seq<Byte>)
    requires |v.descriptor| == 32 && |r.previousDigest| == 32
    ensures |b| == HEADER_BYTES
  {
    Names(v, r) + Place(r) + Ending(r) + Filled(16, 0) + LE(4, sum) + Filled(4, 0)
  }

  /** ct_encode: the header is summed with its own sum as zero. */
  function Encode(v: Volume, r: Record): (b: seq<Byte>)
    requires |v.descriptor| == 32 && |r.previousDigest| == 32
    ensures |b| == HEADER_BYTES
  {
    Header(v, r, P.Sum(Header(v, r, 0)))
  }

  /** owned_control_record_build, for a descriptor that was found valid. */
  function BuildRecord(v: Volume, r: Record): P.Build
    requires VolumeOk(v) && |r.previousDigest| == 32
  {
    if !RecordValid(r, v) then P.BadArgument
    else
      var body := Encode(v, r);
      if P.Answers(v.hash, body) then P.Built(body + v.hash(body).value + Filled(3872, 255)) else P.NoHash
  }

  // ----- What the validator accepts ---------------------------------------------------------------------

  type Page = p: seq<Byte> | |p| == PAGE_BYTES witness seq(PAGE_BYTES, _ => 0)

  datatype Validated = NotValid | HashError | Valid(record: Record, digest: seq<Byte>)

  predicate Matches(p: Page, v: Volume, bank: nat, slot: nat) {
    && p[..8] == MAGIC && Num(p[8..12]) == 1 && Num(p[12..16]) == HEADER_BYTES && p[16..48] == v.descriptor
    && Num(p[124..128]) == bank && Num(p[128..132]) == slot && Num(p[164..168]) == PAGE_BYTES
    && P.AllAre(p[168..184], 0) && P.AllAre(p[188..192], 0) && P.AllAre(p[224..], 255)
  }

  predicate SumHolds(p: Page) {
    Num(p[184..188]) == P.Sum(p[..184] + Filled(4, 0) + p[188..192])
  }

  /** The three enumerations are in range. */
  predicate Coded(p: Page) {
    1 <= Num(p[96..100]) <= 3 && Num(p[100..104]) <= 2 && Num(p[144..148]) <= 2
  }

  function PhaseOf(n: nat): Phase { if n == 1 then Provisioning else if n == 2 then Active else ReadOnly }

  function LeaseOf(n: nat): Lease { if n == 0 then NoLease else if n == 1 then EraseBlock else ProgramPage }

  function ResolutionOf(n: nat): Resolution {
    if n == 0 then Unresolved else if n == 1 then VerifiedComplete else AbandonedRetired
  }

  function BitmapOf(b: seq<Byte>): (s: set<nat>)
    requires |b| == 4
    ensures forall i :: i in s ==> i < 32
  {
    PowerValues();
    Members(Num(b), 32)
  }

  /** ct_decode. */
  function RecordOf(p: Page): Record {
    Record(Num(p[48..56]), Num(p[56..64]), p[64..96],
           PhaseOf(Num(p[96..100])), LeaseOf(Num(p[100..104])), Num(p[104..112]), Num(p[112..116]), Num(p[116..120]),
             Num(p[120..124]),
           Num(p[124..128]), Num(p[128..132]), Num(p[132..136]), BitmapOf(p[136..140]), BitmapOf(p[140..144]),
           ResolutionOf(Num(p[144..148])), Num(p[148..156]), Num(p[156..164]))
  }

  /** ct_validate_page: the place is given, never taken from the page. */
  function ValidatePage(v: Volume, p: Page, bank: nat, slot: nat): Validated
    requires VolumeOk(v)
  {
    if !Matches(p, v, bank, slot) || !SumHolds(p) || !Coded(p) || !RecordValid(RecordOf(p), v) then NotValid
    else if !P.Answers(v.hash, p[..192]) then HashError
    else if v.hash(p[..192]).value != p[192..224] then NotValid
    else Valid(RecordOf(p), p[192..224])
  }

  // ----- Fields and their bytes -------------------------------------------------------------------------

  lemma NamesSlices(v: Volume, r: Record)
    requires |v.descriptor| == 32 && |r.previousDigest| == 32
    ensures var f := Names(v, r);
      && f[..8] == MAGIC && f[8..12] == LE(4, 1) && f[12..16] == LE(4, HEADER_BYTES) && f[16..48] == v.descriptor
      && f[48..56] == LE(8, r.sequence) && f[56..64] == LE(8, r.previousSequence) && f[64..96] == r.previousDigest
  {
    hide LE;
  }

  lemma PlaceSlices(r: Record)
    ensures var f := Place(r);
      && f[..4] == LE(4, PhaseCode(r.phase)) && f[4..8] == LE(4, LeaseCode(r.lease)) && f[8..16] == LE(8, r.leaseId)
      && f[16..20] == LE(4, r.mapSlot) && f[20..24] == LE(4, r.page) && f[24..28] == LE(4, r.targetRow)
      && f[28..32] == LE(4, r.bank) && f[32..36] == LE(4, r.slot) && f[36..40] == LE(4, r.row)
  {
    hide LE, PhaseCode, LeaseCode;
    LastPart(LE(4, PhaseCode(r.phase)) + LE(4, LeaseCode(r.lease)) + LE(8, r.leaseId) + LE(4, r.mapSlot) + LE(4, r.page)
             + LE(4, r.targetRow) + LE(4, r.bank) + LE(4, r.slot), LE(4, r.row));
  }

  lemma LastPart(a: seq<Byte>, b: seq<Byte>)
    ensures (a + b)[|a|..|a| + |b|] == b
  {
  }

  lemma EndingSlices(r: Record)
    ensures var f := Ending(r);
      && f[..4] == LE(4, Bits(r.retiredMap, 32)) && f[4..8] == LE(4, Bits(r.retiredControl, 32))
      && f[8..12] == LE(4, ResolutionCode(r.resolution)) && f[12..20] == LE(8, r.resolvedId)
      && f[20..28] == LE(8, r.highWater) && f[28..32] == LE(4, PAGE_BYTES)
  {
    hide LE, Bits, ResolutionCode;
    LastPart(LE(4, Bits(r.retiredMap, 32)) + LE(4, Bits(r.retiredControl, 32)) + LE(4, ResolutionCode(r.resolution))
             + LE(8, r.resolvedId) + LE(8, r.highWater), LE(4, PAGE_BYTES));
  }

  lemma HeaderSlices(v: Volume, r: Record, sum: nat)
    requires |v.descriptor| == 32 && |r.previousDigest| == 32
    ensures var f := Header(v, r, sum);
      && f[..96] == Names(v, r) && f[96..136] == Place(r) && f[136..168] == Ending(r) && f[168..184] == Filled(16, 0)
      && f[184..188] == LE(4, sum) && f[188..192] == Filled(4, 0)
      && f[..184] == Names(v, r) + Place(r) + Ending(r) + Filled(16, 0)
  {
    hide LE, Names, Place, Ending;
  }

  /** The pieces of a page, and the same pieces within its three groups of fields. */
  lemma PagePieces(p: Page)
    ensures p == p[..192] + p[192..224] + p[224..] && p[..192] == p[..184] + p[184..188] + p[188..192]
    ensures p[..184] == p[..96] + p[96..136] + p[136..168] + p[168..184]
    ensures p[..96] == p[..8] + p[8..12] + p[12..16] + p[16..48] + p[48..56] + p[56..64] + p[64..96]
    ensures p[96..136] == p[96..100] + p[100..104] + p[104..112] + p[112..116] + p[116..120] + p[120..124] + p[124..128]
                          + p[128..132] + p[132..136]
    ensures p[136..168] == p[136..140] + p[140..144] + p[144..148] + p[148..156] + p[156..164] + p[164..168]
  {
  }

  lemma NamesPieces(p: Page)
    ensures var f := p[..96];
      && f[..8] == p[..8] && f[8..12] == p[8..12] && f[12..16] == p[12..16] && f[16..48] == p[16..48]
      && f[48..56] == p[48..56] && f[56..64] == p[56..64] && f[64..96] == p[64..96]
  {
  }

  lemma PlacePieces(p: Page)
    ensures var f := p[96..136];
      && f[..4] == p[96..100] && f[4..8] == p[100..104] && f[8..16] == p[104..112] && f[16..20] == p[112..116]
      && f[20..24] == p[116..120] && f[24..28] == p[120..124] && f[28..32] == p[124..128] && f[32..36] == p[128..132]
      && f[36..40] == p[132..136]
  {
  }

  lemma EndingPieces(p: Page)
    ensures var f := p[136..168];
      && f[..4] == p[136..140] && f[4..8] == p[140..144] && f[8..12] == p[144..148] && f[12..20] == p[148..156]
      && f[20..28] == p[156..164] && f[28..32] == p[164..168]
  {
  }

  lemma HeaderPieces(p: Page)
    ensures var f := p[..192];
      && f[..96] == p[..96] && f[96..136] == p[96..136] && f[136..168] == p[136..168] && f[168..184] == p[168..184]
      && f[184..188] == p[184..188] && f[188..192] == p[188..192] && f[..184] == p[..184]
  {
  }

  lemma BitmapBack(b: seq<Byte>)
    requires |b| == 4
    ensures LE(4, Bits(BitmapOf(b), 32)) == b
  {
    PowerValues();
    BitsOfMembers(Num(b), 32);
    LEOfNum(b);
  }

  lemma BitmapOfBits(s: set<nat>)
    requires forall i :: i in s ==> i < 32
    ensures BitmapOf(LE(4, Bits(s, 32))) == s
  {
    PowerValues();
    NumOfLE(4, Bits(s, 32));
    MembersOfAll(s, 32);
  }

  // ----- A page that validates is the built one ---------------------------------------------------------

  lemma NamesBack(p: Page, v: Volume)
    requires |v.descriptor| == 32 && p[..8] == MAGIC && Num(p[8..12]) == 1 && Num(p[12..16]) == HEADER_BYTES
      && p[16..48] == v.descriptor
    ensures Names(v, RecordOf(p)) == p[..96]
  {
    hide LE, Num, BitmapOf;
    LEOfNum(p[8..12]);
    LEOfNum(p[12..16]);
    LEOfNum(p[48..56]);
    LEOfNum(p[56..64]);
    PagePieces(p);
  }

  lemma PlaceBack(p: Page)
    requires Coded(p)
    ensures Place(RecordOf(p)) == p[96..136]
  {
    hide LE, Num, BitmapOf;
    LEOfNum(p[96..100]);
    LEOfNum(p[100..104]);
    LEOfNum(p[104..112]);
    LEOfNum(p[112..116]);
    LEOfNum(p[116..120]);
    LEOfNum(p[120..124]);
    LEOfNum(p[124..128]);
    LEOfNum(p[128..132]);
    LEOfNum(p[132..136]);
    PagePieces(p);
  }

  lemma EndingBack(p: Page)
    requires Coded(p) && Num(p[164..168]) == PAGE_BYTES
    ensures Ending(RecordOf(p)) == p[136..168]
  {
    hide LE, Num, BitmapOf, Bits;
    BitmapBack(p[136..140]);
    BitmapBack(p[140..144]);
    LEOfNum(p[144..148]);
    LEOfNum(p[148..156]);
    LEOfNum(p[156..164]);
    LEOfNum(p[164..168]);
    PagePieces(p);
  }

  lemma HeaderBack(p: Page, v: Volume, bank: nat, slot: nat)
    requires |v.descriptor| == 32 && Matches(p, v, bank, slot) && SumHolds(p) && Coded(p)
    ensures Encode(v, RecordOf(p)) == p[..192]
  {
    hide LE, Num, BitmapOf, Names, Place, Ending, P.Sum, P.AllAre;
    var r := RecordOf(p);
    NamesBack(p, v);
    PlaceBack(p);
    EndingBack(p);
    PagePieces(p);
    P.FilledIs(p[168..184], 0);
    P.FilledIs(p[188..192], 0);
    P.ZeroField();
    LEOfNum(p[184..188]);
    assert Header(v, r, 0) == p[..184] + Filled(4, 0) + p[188..192];
  }

  lemma DecodedSized(p: Page)
    ensures Sized(RecordOf(p)) && |RecordOf(p).previousDigest| == 32
  {
    hide Num, BitmapOf;
    Powers();
  }

  /** A page that validates is, byte for byte, what the builder writes for the decoded record, and the
      record is well formed and of the given place. */
  lemma ValidIsBuilt(v: Volume, p: Page, bank: nat, slot: nat)
    requires VolumeOk(v) && ValidatePage(v, p, bank, slot).Valid?
    ensures var r := ValidatePage(v, p, bank, slot).record;
      && Sized(r) && RecordValid(r, v) && r.bank == bank && r.slot == slot && BuildRecord(v, r) == P.Built(p)
  {
    hide Num, BitmapOf, Encode, P.AllAre, RecordValid, SumHolds, Coded;
    DecodedSized(p);
    HeaderBack(p, v, bank, slot);
    P.FilledIs(p[224..], 255);
    PagePieces(p);
  }

  // ----- A built page validates -------------------------------------------------------------------------

  lemma Codes(r: Record)
    ensures PhaseOf(PhaseCode(r.phase)) == r.phase && LeaseOf(LeaseCode(r.lease)) == r.lease
    ensures ResolutionOf(ResolutionCode(r.resolution)) == r.resolution
    ensures 1 <= PhaseCode(r.phase) <= 3 && LeaseCode(r.lease) <= 2 && ResolutionCode(r.resolution) <= 2
  {
  }

  /** A valid record's numbers fit their fields. */
  lemma Fitting(r: Record, v: Volume)
    requires VolumeOk(v) && RecordValid(r, v) && Sized(r)
    ensures r.sequence < 0x1_0000_0000_0000_0000 && r.previousSequence < 0x1_0000_0000_0000_0000
    ensures r.leaseId < 0x1_0000_0000_0000_0000 && r.resolvedId < 0x1_0000_0000_0000_0000
    ensures r.mapSlot < 0x1_0000_0000 && r.page < 0x1_0000_0000 && r.targetRow < 0x1_0000_0000
    ensures r.bank < 2 && r.slot < SLOTS && r.row < 0x1_0000_0000
    ensures (forall i :: i in r.retiredControl ==> i < 32)
  {
  }

  lemma NamesRead(p: Page, v: Volume, r: Record)
    requires VolumeOk(v) && RecordValid(r, v) && Sized(r) && p[..96] == Names(v, r)
    ensures p[..8] == MAGIC && Num(p[8..12]) == 1 && Num(p[12..16]) == HEADER_BYTES && p[16..48] == v.descriptor
    ensures Num(p[48..56]) == r.sequence && Num(p[56..64]) == r.previousSequence && p[64..96] == r.previousDigest
  {
    hide LE, Num, RecordValid, Names;
    Fitting(r, v);
    Powers();
    NamesSlices(v, r);
    NamesPieces(p);
    NumOfLE(4, 1);
    NumOfLE(4, HEADER_BYTES);
    NumOfLE(8, r.sequence);
    NumOfLE(8, r.previousSequence);
  }

  lemma PlaceRead(p: Page, v: Volume, r: Record)
    requires VolumeOk(v) && RecordValid(r, v) && Sized(r) && p[96..136] == Place(r)
    ensures Num(p[96..100]) == PhaseCode(r.phase) && Num(p[100..104]) == LeaseCode(r.lease)
      && Num(p[104..112]) == r.leaseId
    ensures Num(p[112..116]) == r.mapSlot && Num(p[116..120]) == r.page && Num(p[120..124]) == r.targetRow
    ensures Num(p[124..128]) == r.bank && Num(p[128..132]) == r.slot && Num(p[132..136]) == r.row
  {
    hide LE, Num, RecordValid, Place, PhaseCode, LeaseCode;
    Fitting(r, v);
    Codes(r);
    Powers();
    PlaceSlices(r);
    PlacePieces(p);
    NumOfLE(4, PhaseCode(r.phase));
    NumOfLE(4, LeaseCode(r.lease));
    NumOfLE(8, r.leaseId);
    NumOfLE(4, r.mapSlot);
    NumOfLE(4, r.page);
    NumOfLE(4, r.targetRow);
    NumOfLE(4, r.bank);
    NumOfLE(4, r.slot);
    NumOfLE(4, r.row);
  }

  lemma EndingRead(p: Page, v: Volume, r: Record)
    requires VolumeOk(v) && RecordValid(r, v) && Sized(r) && p[136..168] == Ending(r)
    ensures BitmapOf(p[136..140]) == r.retiredMap && BitmapOf(p[140..144]) == r.retiredControl
    ensures Num(p[144..148]) == ResolutionCode(r.resolution) && Num(p[148..156]) == r.resolvedId
    ensures Num(p[156..164]) == r.highWater && Num(p[164..168]) == PAGE_BYTES
  {
    hide LE, Num, RecordValid, Ending, ResolutionCode, BitmapOf, Bits;
    Fitting(r, v);
    Codes(r);
    Powers();
    EndingSlices(r);
    EndingPieces(p);
    BitmapOfBits(r.retiredMap);
    BitmapOfBits(r.retiredControl);
    NumOfLE(4, ResolutionCode(r.resolution));
    NumOfLE(8, r.resolvedId);
    NumOfLE(8, r.highWater);
    NumOfLE(4, PAGE_BYTES);
  }

  lemma EncodedPieces(p: Page, v: Volume, r: Record)
    requires |v.descriptor| == 32 && |r.previousDigest| == 32 && p[..192] == Encode(v, r)
    ensures p[..96] == Names(v, r) && p[96..136] == Place(r) && p[136..168] == Ending(r)
    ensures p[168..184] == Filled(16, 0) && p[188..192] == Filled(4, 0) && SumHolds(p)
  {
    hide LE, Num, Names, Place, Ending, P.Sum;
    HeaderPieces(p);
    var sum := P.Sum(Header(v, r, 0));
    HeaderSlices(v, r, 0);
    HeaderSlices(v, r, sum);
    Powers();
    NumOfLE(4, sum);
    P.ZeroField();
    assert p[..184] + Filled(4, 0) + p[188..192] == Header(v, r, 0);
  }

  /** The header of a record reads back as that record. */
  lemma EncodedReads(p: Page, v: Volume, r: Record)
    requires VolumeOk(v) && RecordValid(r, v) && Sized(r) && p[..192] == Encode(v, r)
    ensures RecordOf(p) == r && Coded(p) && SumHolds(p) && p[168..184] == Filled(16, 0) && p[188..192] == Filled(4, 0)
    ensures p[..8] == MAGIC && Num(p[8..12]) == 1 && Num(p[12..16]) == HEADER_BYTES && p[16..48] == v.descriptor
    ensures Num(p[124..128]) == r.bank && Num(p[128..132]) == r.slot && Num(p[164..168]) == PAGE_BYTES
  {
    hide LE, Num, RecordValid, Names, Place, Ending, Encode, BitmapOf, SumHolds;
    EncodedPieces(p, v, r);
    NamesRead(p, v, r);
    PlaceRead(p, v, r);
    EndingRead(p, v, r);
    Codes(r);
  }

  lemma BuiltPieces(v: Volume, r: Record, p: seq<Byte>)
    requires VolumeOk(v) && |r.previousDigest| == 32 && BuildRecord(v, r) == P.Built(p)
    ensures |p| == PAGE_BYTES && RecordValid(r, v) && p[..192] == Encode(v, r) && P.Answers(v.hash, p[..192])
    ensures p[192..224] == v.hash(p[..192]).value && p[224..] == Filled(3872, 255)
  {
    hide Encode, RecordValid;
  }

  /** What the builder writes for a record validates at the record's place, as that record. */
  lemma BuiltIsValid(v: Volume, r: Record, p: Page)
    requires VolumeOk(v) && Sized(r) && BuildRecord(v, r) == P.Built(p)
    ensures P.Answers(v.hash, p[..192]) && ValidatePage(v, p, r.bank, r.slot) == Valid(r, v.hash(p[..192]).value)
  {
    hide Num, Encode, RecordValid, RecordOf, Coded, SumHolds, P.AllAre;
    BuiltPieces(v, r, p);
    EncodedReads(p, v, r);
    P.FilledIs(p[168..184], 0);
    P.FilledIs(p[188..192], 0);
    P.FilledIs(p[224..], 255);
  }

  /** A page validates at a place if and only if it is the built page of some well-formed record there. */
  lemma ValidIffBuilt(v: Volume, p: Page, bank: nat, slot: nat)
    requires VolumeOk(v)
    ensures ValidatePage(v, p, bank, slot).Valid? <==>
      exists r :: Sized(r) && r.bank == bank && r.slot == slot && BuildRecord(v, r) == P.Built(p)
  {
    hide ValidatePage, BuildRecord;
    if ValidatePage(v, p, bank, slot).Valid? { ValidIsBuilt(v, p, bank, slot); }
    forall r | Sized(r) && r.bank == bank && r.slot == slot && BuildRecord(v, r) == P.Built(p)
      ensures ValidatePage(v, p, bank, slot).Valid?
    {
      BuiltIsValid(v, r, p);
    }
  }

  /** Different records have different pages. */
  lemma BuildingIsInjective(v: Volume, a: Record, b: Record, p: Page)
    requires VolumeOk(v) && Sized(a) && Sized(b) && BuildRecord(v, a) == P.Built(p) && BuildRecord(v, b) == P.Built(p)
    ensures a == b
  {
    hide BuildRecord, Encode, RecordValid, RecordOf;
    BuiltPieces(v, a, p);
    BuiltPieces(v, b, p);
    EncodedReads(p, v, a);
    EncodedReads(p, v, b);
  }

  /** A page never validates at a second place. */
  lemma OnePlace(v: Volume, p: Page, bank: nat, slot: nat, bank': nat, slot': nat)
    requires VolumeOk(v) && ValidatePage(v, p, bank, slot).Valid? && ValidatePage(v, p, bank', slot').Valid?
    ensures bank == bank' && slot == slot'
  {
    hide Num, RecordValid, SumHolds, Coded, RecordOf;
  }
}
