/**
 The 512-byte descriptor of an owned volume and the mapping it defines. It validates exactly when the
 builder writes it for the expected volume, and then logical pages go to distinct rows of map blocks only.
 */
module VolumeDescriptor {
  import opened Bytes
  import opened Crc
  import opened OwnedPage

  const DESCRIPTOR: nat := 512
  const DESCRIPTOR_HEADER: nat := 352
  const MAP_BLOCKS: nat := 32
  const PER_BLOCK: nat := 64
  const LOGICAL_PAGES: nat := 2048
  const BLOCK_LIMIT: nat := 1536

  /** "OPNDVD1" and a zero byte. */
  const MAGIC: seq<Byte> := [79, 80, 78, 68, 86, 68, 49, 0]
  /** The pinned files of the translation layer. */
  const DHARA: seq<Byte> := [
    0xfc, 0x38, 0x49, 0x09, 0x4b, 0x35, 0x4c, 0x7b, 0xc4, 0x74, 0xa1, 0x65, 0xcf, 0x08, 0xcf, 0xf0,
    0xe3, 0x6a, 0x9e, 0x33, 0x95, 0x4a, 0xf8, 0x5f, 0xb7, 0x8b, 0xfd, 0x6b, 0xac, 0x3a, 0x3c, 0xbd]

  datatype Spec = Spec(
    device: seq<Byte>, volume: seq<Byte>, generation: nat, recipient: seq<Byte>, manifest: seq<Byte>,
    map_: seq<nat>, control: seq<nat>)

  predicate BlockOk(b: nat) { b < BLOCK_LIMIT && !(1549 <= b <= 1569) }

  predicate Distinct(s: seq<nat>) { forall i, j :: 0 <= j < i < |s| ==> s[i] != s[j] }

  predicate Apart(s: seq<nat>, t: seq<nat>) { forall i, j :: 0 <= i < |s| && 0 <= j < |t| ==> s[i] != t[j] }

  predicate Blocks(s: seq<nat>) { forall i :: 0 <= i < |s| ==> BlockOk(s[i]) }

  /** The struct has room for so many blocks and no more. */
  predicate Shaped(s: Spec) { |s.map_| == MAP_BLOCKS && |s.control| == 2 }

  predicate SpecOk(s: Spec) {
    && Shaped(s) && Identity(s.device, 16) && Identity(s.volume, 16) && 0 < s.generation <= 0x7fff_ffff_ffff_ffff
    && Identity(s.recipient, 32) && Identity(s.manifest, 32)
    && Blocks(s.map_) && Blocks(s.control) && Distinct(s.map_) && Distinct(s.control) && Apart(s.map_, s.control)
  }

  /** No block of `s` before place `i` is `x`. */
  method Absent(s: seq<nat>, i: nat, x: nat) returns (ok: bool)
    requires i <= |s|
    ensures ok <==> forall j :: 0 <= j < i ==> s[j] != x
  {
    for j := 0 to i
      invariant forall k :: 0 <= k < j ==> s[k] != x
    {
      if s[j] == x { return false; }
    }
    ok := true;
  }

  /** spec_valid: one pass over the map, one over the control blocks. */
  method SpecValid(s: Spec) returns (ok: bool)
    requires Shaped(s)
    ensures ok <==> SpecOk(s)
  {
    if !Identity(s.device, 16) || !Identity(s.volume, 16) || s.generation == 0 || s.generation > 0x7fff_ffff_ffff_ffff
       || !Identity(s.recipient, 32) || !Identity(s.manifest, 32)
    {
      return false;
    }
    for i := 0 to MAP_BLOCKS
      invariant Blocks(s.map_[..i]) && Distinct(s.map_[..i]) && Apart(s.map_[..i], s.control)
    {
      if !BlockOk(s.map_[i]) { return false; }
      var absent := Absent(s.map_, i, s.map_[i]);
      if !absent { return false; }
      absent := Absent(s.control, 2, s.map_[i]);
      if !absent { return false; }
    }
    assert s.map_[..MAP_BLOCKS] == s.map_;
    for i := 0 to 2
      invariant Blocks(s.control[..i]) && Distinct(s.control[..i])
    {
      if !BlockOk(s.control[i]) { return false; }
      var absent := Absent(s.control, i, s.control[i]);
      if !absent { return false; }
    }
    assert s.control[..2] == s.control;
    ok := true;
  }

  // ----- What the builder writes ------------------------------------------------------------------------

  function Geometry(s: Spec): (f: seq<Byte>)
    requires |s.device| == 16 && |s.volume| == 16
    ensures |f| == 76
  {
    MAGIC + LE(2, 1) + LE(2, DESCRIPTOR_HEADER) + LE(4, DESCRIPTOR) + s.device + s.volume + LE(8, s.generation)
    + LE(4, 4096) + LE(2, 256) + LE(2, 64) + LE(4, LOGICAL_PAGES) + LE(2, MAP_BLOCKS) + LE(2, 2) + [1, 1] + LE(2, 1)
  }

  predicate Sized(s: Spec) {
    |s.device| == 16 && |s.volume| == 16 && |s.recipient| == 32 && |s.manifest| == 32 && Shaped(s)
  }

  function DescriptorBytes(s: Spec, sum: nat): (f: seq<Byte>)
    requires Sized(s)
    ensures |f| == DESCRIPTOR_HEADER
  {
    WordsLength(s.map_);
    WordsLength(s.control);
    Geometry(s) + DHARA + s.recipient + s.manifest + Words(s.map_) + Words(s.control) + LE(2, BLOCK_LIMIT)
    + Filled(10, 0) + LE(4, sum) + Filled(28, 0)
  }

  function Described(s: Spec): (f: seq<Byte>)
    requires Sized(s)
    ensures |f| == DESCRIPTOR_HEADER
  {
    DescriptorBytes(s, Sum(DescriptorBytes(s, 0)))
  }

  function BuildDescriptor(h: Provider, s: Spec): Build
    requires Shaped(s)
  {
    if !SpecOk(s) then BadArgument
    else
      var body := Described(s);
      if Answers(h, body) then Built(body + h(body).value + Filled(128, 255)) else NoHash
  }

  // ----- What the validator accepts ---------------------------------------------------------------------

  predicate GeometryMatches(p: seq<Byte>, s: Spec)
    requires |p| == DESCRIPTOR
  {
    && p[..8] == MAGIC && Num(p[8..10]) == 1 && Num(p[10..12]) == DESCRIPTOR_HEADER && Num(p[12..16]) == DESCRIPTOR
    && p[16..32] == s.device && p[32..48] == s.volume && Num(p[48..56]) == s.generation
    && Num(p[56..60]) == 4096 && Num(p[60..62]) == 256 && Num(p[62..64]) == 64 && Num(p[64..68]) == LOGICAL_PAGES
    && Num(p[68..70]) == MAP_BLOCKS && Num(p[70..72]) == 2 && p[72] == 1 && p[73] == 1 && Num(p[74..76]) == 1
  }

  predicate Matches(p: seq<Byte>, s: Spec)
    requires |p| == DESCRIPTOR && Shaped(s)
  {
    && GeometryMatches(p, s) && p[76..108] == DHARA && p[108..140] == s.recipient && p[140..172] == s.manifest
    && Num(p[308..310]) == BLOCK_LIMIT && AllAre(p[310..320], 0) && AllAre(p[324..352], 0)
    && WordsMatch(p[172..300], s.map_) && WordsMatch(p[300..308], s.control)
  }

  datatype Decoded = BadInput | Undigested | Unsound | Sound(spec: Spec, digest: seq<Byte>)

  /** The words of a list of blocks, read back. */
  function ReadWords(b: seq<Byte>, n: nat): (ws: seq<nat>)
    requires |b| == 4 * n
  {
    seq(n, i requires 0 <= i < n => Num(b[4 * i..4 * i + 4]))
  }

  function ReadSpec(p: seq<Byte>): Spec
    requires |p| == DESCRIPTOR
  {
    Spec(p[16..32], p[32..48], Num(p[48..56]), p[108..140], p[140..172], ReadWords(p[172..300], 32),
      ReadWords(p[300..308], 2))
  }

  function ValidateDescriptor(h: Provider, p: seq<Byte>, s: Spec): Decoded
    requires Shaped(s)
  {
    if |p| != DESCRIPTOR || !SpecOk(s) then BadInput
    else if !Matches(p, s) || Num(p[320..324]) != Sum(p[..320] + Filled(4, 0) + p[324..352]) || !AllAre(p[384..], 255)
      then Unsound
    else if !Answers(h, p[..352]) then Undigested
    else if h(p[..352]).value != p[352..384] then Unsound
    else Sound(ReadSpec(p), p[352..384])
  }

  datatype Mapping = MapFailed(why: Decoded) | MapArgument | Row(row: nat)

  /** The physical row of a logical page. */
  function MapPage(h: Provider, p: seq<Byte>, s: Spec, logical: nat): Mapping
    requires Shaped(s)
  {
    if logical >= LOGICAL_PAGES then MapArgument
    else
      var d := ValidateDescriptor(h, p, s);
      if !d.Sound? then MapFailed(d)
      else
        var block := d.spec.map_[logical / PER_BLOCK];
        if !BlockOk(block) || block > (0xffff_ffff - 63) / PER_BLOCK then MapFailed(Unsound)
        else Row(block * PER_BLOCK + logical % PER_BLOCK)
  }

  // ----- The validator accepts exactly what the builder writes ------------------------------------------

  lemma GeometrySlices(s: Spec)
    requires |s.device| == 16 && |s.volume| == 16
    ensures var f := Geometry(s);
      && f[..8] == MAGIC && f[8..10] == LE(2, 1) && f[10..12] == LE(2, DESCRIPTOR_HEADER)
        && f[12..16] == LE(4, DESCRIPTOR)
      && f[16..32] == s.device && f[32..48] == s.volume && f[48..56] == LE(8, s.generation) && f[56..60] == LE(4, 4096)
      && f[60..62] == LE(2, 256) && f[62..64] == LE(2, 64) && f[64..68] == LE(4, LOGICAL_PAGES)
        && f[68..70] == LE(2, MAP_BLOCKS)
      && f[70..72] == LE(2, 2) && f[72..74] == [1, 1] && f[74..76] == LE(2, 1)
  {
    hide LE;
  }

  lemma GeometryChunks(p: seq<Byte>)
    requires |p| == DESCRIPTOR
    ensures var f := p[..76];
      && f[..8] == p[..8] && f[8..10] == p[8..10] && f[10..12] == p[10..12] && f[12..16] == p[12..16]
        && f[16..32] == p[16..32]
      && f[32..48] == p[32..48] && f[48..56] == p[48..56] && f[56..60] == p[56..60] && f[60..62] == p[60..62]
        && f[62..64] == p[62..64]
      && f[64..68] == p[64..68] && f[68..70] == p[68..70] && f[70..72] == p[70..72] && f[72..74] == p[72..74]
        && f[74..76] == p[74..76]
    ensures p[..76] == p[..8] + p[8..10] + p[10..12] + p[12..16] + p[16..32] + p[32..48] + p[48..56] + p[56..60]
      + p[60..62]
                       + p[62..64] + p[64..68] + p[68..70] + p[70..72] + p[72..74] + p[74..76]
    ensures p[72..74] == [1, 1] <==> p[72] == 1 && p[73] == 1
  {
  }

  lemma GeometryIff(p: seq<Byte>, s: Spec)
    requires |p| == DESCRIPTOR && Identity(s.device, 16) && Identity(s.volume, 16)
      && s.generation < 0x1_0000_0000_0000_0000
    ensures GeometryMatches(p, s) <==> p[..76] == Geometry(s)
  {
    hide LE, Num, AllAre, Identity;
    Powers();
    IdentityLength(s.device);
    IdentityLength(s.volume);
    FieldIs(p[8..10], 2, 1);
    FieldIs(p[10..12], 2, DESCRIPTOR_HEADER);
    FieldIs(p[12..16], 4, DESCRIPTOR);
    FieldIs(p[48..56], 8, s.generation);
    FieldIs(p[56..60], 4, 4096);
    FieldIs(p[60..62], 2, 256);
    FieldIs(p[62..64], 2, 64);
    FieldIs(p[64..68], 4, LOGICAL_PAGES);
    FieldIs(p[68..70], 2, MAP_BLOCKS);
    FieldIs(p[70..72], 2, 2);
    FieldIs(p[74..76], 2, 1);
    GeometrySlices(s);
    GeometryChunks(p);
  }

  lemma HeaderSlices(s: Spec, sum: nat)
    requires Sized(s)
    ensures var f := DescriptorBytes(s, sum);
      && f[..76] == Geometry(s) && f[76..108] == DHARA && f[108..140] == s.recipient && f[140..172] == s.manifest
      && f[172..300] == Words(s.map_) && f[300..308] == Words(s.control) && f[308..310] == LE(2, BLOCK_LIMIT)
      && f[310..320] == Filled(10, 0) && f[320..324] == LE(4, sum) && f[324..352] == Filled(28, 0)
      && f[..320] == Geometry(s) + DHARA + s.recipient + s.manifest + Words(s.map_) + Words(s.control)
        + LE(2, BLOCK_LIMIT) + Filled(10, 0)
  {
    hide LE, Words, Geometry;
    WordsLength(s.map_);
    WordsLength(s.control);
  }

  lemma HeaderChunks(p: seq<Byte>)
    requires |p| == DESCRIPTOR
    ensures var f := p[..352];
      && f[..76] == p[..76] && f[76..108] == p[76..108] && f[108..140] == p[108..140] && f[140..172] == p[140..172]
      && f[172..300] == p[172..300] && f[300..308] == p[300..308] && f[308..310] == p[308..310]
        && f[310..320] == p[310..320]
      && f[320..324] == p[320..324] && f[324..352] == p[324..352]
    ensures p[..320] == p[..76] + p[76..108] + p[108..140] + p[140..172] + p[172..300] + p[300..308] + p[308..310]
      + p[310..320]
    ensures p[..352] == p[..320] + p[320..324] + p[324..352] && p == p[..352] + p[352..384] + p[384..]
  {
  }

  lemma SpecFacts(s: Spec)
    requires SpecOk(s)
    ensures Sized(s) && (forall i :: 0 <= i < MAP_BLOCKS ==> s.map_[i] < 0x1_0000_0000)
      && (forall i :: 0 <= i < 2 ==> s.control[i] < 0x1_0000_0000)
  {
  }

  /** Every field but the sum matches exactly when the bytes around the sum are those of the header. */
  lemma MatchesIff(p: seq<Byte>, s: Spec)
    requires |p| == DESCRIPTOR && SpecOk(s) && Sized(s)
    ensures Matches(p, s) <==> p[..320] == DescriptorBytes(s, 0)[..320] && p[324..352] == Filled(28, 0)
  {
    hide LE, Num, AllAre, Identity, Geometry, GeometryMatches, Words, WordsMatch, DescriptorBytes;
    SpecFacts(s);
    GeometryIff(p, s);
    WordsIff(p[172..300], s.map_);
    WordsIff(p[300..308], s.control);
    Powers();
    FieldIs(p[308..310], 2, BLOCK_LIMIT);
    FilledIs(p[310..320], 0);
    FilledIs(p[324..352], 0);
    HeaderSlices(s, 0);
    HeaderChunks(p);
    TopSlices(p, s);
  }

  /** Equal up to the sum is equal field by field. */
  lemma TopSlices(p: seq<Byte>, s: Spec)
    requires |p| == DESCRIPTOR && Sized(s)
    ensures var f := DescriptorBytes(s, 0); p[..320] == f[..320] ==>
      && p[..76] == f[..76] && p[76..108] == f[76..108] && p[108..140] == f[108..140] && p[140..172] == f[140..172]
      && p[172..300] == f[172..300] && p[300..308] == f[300..308] && p[308..310] == f[308..310]
        && p[310..320] == f[310..320]
  {
    hide DescriptorBytes;
    var f := DescriptorBytes(s, 0);
    var g := f[..320];
    assert g[..76] == f[..76] && g[76..108] == f[76..108] && g[108..140] == f[108..140] && g[140..172] == f[140..172];
    assert g[172..300] == f[172..300] && g[300..308] == f[300..308] && g[308..310] == f[308..310]
      && g[310..320] == f[310..320];
    var q := p[..320];
    assert q[..76] == p[..76] && q[76..108] == p[76..108] && q[108..140] == p[108..140] && q[140..172] == p[140..172];
    assert q[172..300] == p[172..300] && q[300..308] == p[300..308] && q[308..310] == p[308..310]
      && q[310..320] == p[310..320];
  }

  predicate SumHolds(p: seq<Byte>)
    requires |p| == DESCRIPTOR
  {
    Num(p[320..324]) == Sum(p[..320] + Filled(4, 0) + p[324..352])
  }

  lemma HeaderTop(s: Spec, sum: nat)
    requires Sized(s)
    ensures DescriptorBytes(s, sum) == DescriptorBytes(s, 0)[..320] + LE(4, sum) + Filled(28, 0)
  {
    hide LE, Words, Geometry;
    HeaderSlices(s, 0);
    HeaderSlices(s, sum);
  }

  lemma DescribedIff(p: seq<Byte>, s: Spec)
    requires |p| == DESCRIPTOR && SpecOk(s) && Sized(s)
    ensures Matches(p, s) && SumHolds(p) <==> p[..352] == Described(s)
  {
    hide LE, Num, Identity, Geometry, Words, DescriptorBytes, Matches, Sum;
    MatchesIff(p, s);
    HeaderChunks(p);
    Powers();
    ZeroField();
    var sum := Sum(DescriptorBytes(s, 0));
    HeaderTop(s, 0);
    HeaderTop(s, sum);
    HeaderSlices(s, sum);
    FieldIs(p[320..324], 4, sum);
    var d := Described(s);
    assert d[..320] == DescriptorBytes(s, 0)[..320] && d[320..324] == LE(4, sum) && d[324..352] == Filled(28, 0);
    if p[..352] == d {
      assert p[..320] == p[..352][..320];
    }
  }

  lemma SumIsHeld(p: seq<Byte>)
    requires |p| == DESCRIPTOR
    ensures SumHolds(p) <==> Num(p[320..324]) == Sum(p[..320] + Filled(4, 0) + p[324..352])
  {
  }

  /** A descriptor validates for a volume exactly when the builder writes it for that volume. */
  lemma {:induction false} DescriptorIffBuilt(h: Provider, p: seq<Byte>, s: Spec)
    requires Shaped(s)
    ensures ValidateDescriptor(h, p, s).Sound? <==> BuildDescriptor(h, s) == Built(p)
  {
    hide Matches, SpecOk, Described, SumHolds, Num, ReadSpec, Identity;
    if SpecOk(s) {
      SpecFacts(s);
      if |p| == DESCRIPTOR {
        DescribedIff(p, s);
        SumIsHeld(p);
        HeaderChunks(p);
        FilledIs(p[384..], 255);
      }
      if BuildDescriptor(h, s) == Built(p) {
        var body := Described(s);
        assert p[..352] == body && p[352..384] == h(body).value && p[384..] == Filled(128, 255);
      }
    }
  }

  /** What is read back is the volume that was expected. */
  lemma DecodedIsExpected(h: Provider, p: seq<Byte>, s: Spec)
    requires Shaped(s) && ValidateDescriptor(h, p, s).Sound?
    ensures ValidateDescriptor(h, p, s).spec == s && SpecOk(s)
  {
    hide SpecOk, Num, Identity;
    ReadIs(p[172..300], s.map_);
    ReadIs(p[300..308], s.control);
  }

  lemma ReadIs(b: seq<Byte>, ws: seq<nat>)
    requires |b| == 4 * |ws| && WordsMatch(b, ws)
    ensures ReadWords(b, |ws|) == ws
  {
    hide Num;
    forall i | 0 <= i < |ws| ensures ReadWords(b, |ws|)[i] == ws[i] { assert WordAt(b, ws, i); }
  }

  // ----- The mapping ------------------------------------------------------------------------------------

  /** Every logical page of a valid descriptor has a row: its place in the block its slot names. */
  lemma MapIsTotal(h: Provider, p: seq<Byte>, s: Spec, logical: nat)
    requires Shaped(s) && ValidateDescriptor(h, p, s).Sound? && logical < LOGICAL_PAGES
    ensures MapPage(h, p, s, logical) == Row(s.map_[logical / 64] * 64 + logical % 64)
  {
    hide ValidateDescriptor, Identity;
    DecodedIsExpected(h, p, s);
  }

  /** Different logical pages have different rows. */
  lemma MapIsInjective(h: Provider, p: seq<Byte>, s: Spec, one: nat, other: nat)
    requires Shaped(s) && MapPage(h, p, s, one).Row? && MapPage(h, p, s, one) == MapPage(h, p, s, other)
    ensures one == other
  {
    hide ValidateDescriptor, Identity;
    DecodedIsExpected(h, p, s);
    assert s.map_[one / 64] == s.map_[other / 64];
  }

  /** No logical page lies in a control block, a reserved block or beyond the allowed ones. */
  lemma MapAvoidsControl(h: Provider, p: seq<Byte>, s: Spec, logical: nat)
    requires Shaped(s) && MapPage(h, p, s, logical).Row?
    ensures var block := MapPage(h, p, s, logical).row / 64;
      block !in s.control && block < BLOCK_LIMIT && block == s.map_[logical / 64]
  {
    hide ValidateDescriptor, Identity;
    DecodedIsExpected(h, p, s);
  }
}
