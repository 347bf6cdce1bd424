/**
 The 4096-byte pages of an owned volume. A DATA page carries 2048 bytes; the COMMIT page beside it names
 the object and the digest of the DATA page. A page validates exactly when the builder would write it.
 */
module OwnedPage {
  import opened Bytes
  import opened Crc

  const PAGE: nat := 4096
  const HEADER: nat := 96
  const PAYLOAD: nat := 2048
  const SUMMED: nat := 2144
  const ROW_LIMIT: nat := 131072
  const DATA: nat := 1
  const COMMIT: nat := 2

  /** "OPNDPG1" and "OPNDCM1", each with a zero byte. */
  const PAGE_MAGIC: seq<Byte> := [79, 80, 78, 68, 80, 71, 49, 0]
  const COMMIT_MAGIC: seq<Byte> := [79, 80, 78, 68, 67, 77, 49, 0]

  /** What the digest provider answers. */
  datatype Answer = NoDigest | Digest(value: seq<Byte>)
  type Provider = seq<Byte> -> Answer

  predicate Answers(h: Provider, body: seq<Byte>) { h(body).Digest? && |h(body).value| == 32 }

  /** A provider that never gives two bodies one digest. */
  ghost predicate CollisionFree(h: Provider) {
    forall a: seq<Byte>, b: seq<Byte> :: Answers(h, a) && h(a) == h(b) ==> a == b
  }

  datatype Binding = Binding(
    device: seq<Byte>, volume: seq<Byte>, generation: nat, logical: nat, physical: nat, lease: nat, kind: nat)

  predicate AllAre(b: seq<Byte>, x: Byte) { forall i :: 0 <= i < |b| ==> b[i] == x }

  predicate Identity(b: seq<Byte>, n: nat) { |b| == n && !AllAre(b, 0) && !AllAre(b, 255) }

  predicate BindingOk(b: Binding) {
    && Identity(b.device, 16) && Identity(b.volume, 16) && 0 < b.generation <= 0x7fff_ffff_ffff_ffff
    && 0 < b.lease < 0x1_0000_0000_0000_0000 && b.logical < ROW_LIMIT && b.physical < ROW_LIMIT
    && b.logical % 64 == b.physical % 64 && (b.kind == DATA || b.kind == COMMIT)
  }

  // ----- What the builder writes ------------------------------------------------------------------------

  /** CRC-32. */
  function Sum(b: seq<Byte>): (n: nat)
    ensures n < 0x1_0000_0000
  {
    Crc32(b) as nat
  }

  /** The checksum loop: the header's own sum counts as four zero bytes. */
  method PageCrc(p: seq<Byte>, header: bool) returns (crc: nat)
    requires header ==> |p| == HEADER
    ensures crc == Sum(if header then p[..76] + Filled(4, 0) + p[80..96] else p)
  {
    hide ByteStep;
    var v: bv32 := 0xffff_ffff;
    ghost var q := if header then p[..76] + Filled(4, 0) + p[80..96] else p;
    for i := 0 to |p|
      invariant v == Register(0xffff_ffff, q[..i])
    {
      RegisterStep(0xffff_ffff, q, i);
      v := BitByte(v, if header && 76 <= i < 80 then 0 else p[i]);
    }
    assert q[..|p|] == q;
    crc := (!v) as nat;
  }

  function Front(b: Binding): (f: seq<Byte>)
    requires |b.device| == 16 && |b.volume| == 16
    ensures |f| == 72
  {
    PAGE_MAGIC + LE(2, 1) + LE(2, b.kind) + LE(2, HEADER) + LE(2, PAYLOAD) + b.device + b.volume
    + LE(8, b.generation) + LE(4, b.logical) + LE(4, b.physical) + LE(8, b.lease)
  }

  function HeaderBytes(b: Binding, payloadSum: nat, headerSum: nat): (f: seq<Byte>)
    requires |b.device| == 16 && |b.volume| == 16
    ensures |f| == HEADER
  {
    Front(b) + LE(4, payloadSum) + LE(4, headerSum) + Filled(16, 0)
  }

  /** The header is summed with its own sum as zero. */
  function Header(b: Binding, payload: seq<Byte>): (f: seq<Byte>)
    requires |b.device| == 16 && |b.volume| == 16
    ensures |f| == HEADER
  {
    HeaderBytes(b, Sum(payload), Sum(HeaderBytes(b, Sum(payload), 0)))
  }

  datatype Build = BadArgument | NoHash | NotBuilt | Built(page: seq<Byte>)

  function Seal(h: Provider, b: Binding, payload: seq<Byte>): Build
    requires |b.device| == 16 && |b.volume| == 16
  {
    var body := Header(b, payload) + payload;
    if Answers(h, body) then Built(body + h(body).value + Filled(1920, 255)) else NoHash
  }

  function BuildData(h: Provider, b: Binding, payload: seq<Byte>): Build {
    if !BindingOk(b) || b.kind != DATA || |payload| != PAYLOAD then BadArgument else Seal(h, b, payload)
  }

  // ----- What the validator accepts ---------------------------------------------------------------------

  datatype View = Argument | HashError | ErasedLooking | NotValid | Valid(payload: seq<Byte>, digest: seq<Byte>)

  predicate HeaderMatches(p: seq<Byte>, b: Binding)
    requires |p| == PAGE
  {
    && p[..8] == PAGE_MAGIC && Num(p[8..10]) == 1 && Num(p[10..12]) == b.kind && Num(p[12..14]) == HEADER
    && Num(p[14..16]) == PAYLOAD && p[16..32] == b.device && p[32..48] == b.volume && Num(p[48..56]) == b.generation
    && Num(p[56..60]) == b.logical && Num(p[60..64]) == b.physical && Num(p[64..72]) == b.lease && AllAre(p[80..96], 0)
  }

  predicate CommitSyntax(p: seq<Byte>, b: Binding)
    requires |p| == PAYLOAD
  {
    && p[..8] == COMMIT_MAGIC && Num(p[8..10]) == 1 && Num(p[10..12]) == 96 && Num(p[12..16]) == PAYLOAD
    && Identity(p[16..32], 16) && b.logical > 0 && b.physical > 0 && b.logical % 64 != 0
    && Num(p[32..36]) == b.logical - 1 && Num(p[36..40]) == b.physical - 1 && Num(p[40..48]) == b.lease
    && AllAre(p[80..96], 0) && AllAre(p[96..], 255)
  }

  function Validate(h: Provider, p: seq<Byte>, b: Binding): View {
    if |p| != PAGE || !BindingOk(b) then Argument
    else if AllAre(p, 255) then ErasedLooking
    else if !HeaderMatches(p, b) || !AllAre(p[2176..], 255)
            || Num(p[76..80]) != Sum(p[..76] + Filled(4, 0) + p[80..96]) || Num(p[72..76]) != Sum(p[96..SUMMED])
            || (b.kind == COMMIT && !CommitSyntax(p[96..SUMMED], b)) then NotValid
    else if !Answers(h, p[..SUMMED]) then HashError
    else if h(p[..SUMMED]).value != p[SUMMED..2176] then NotValid
    else Valid(p[96..SUMMED], p[SUMMED..2176])
  }

  // ----- Commits ----------------------------------------------------------------------------------------

  /** A commit stands on the page after its data, in the same block and under the same lease. */
  predicate Pair(c: Binding, d: Binding) {
    && BindingOk(c) && BindingOk(d) && c.kind == COMMIT && d.kind == DATA && c.device == d.device
      && c.volume == d.volume
    && c.generation == d.generation && c.lease == d.lease && c.logical == d.logical + 1 && c.physical == d.physical + 1
    && c.logical / 64 == d.logical / 64 && c.physical / 64 == d.physical / 64
  }

  function CommitPayload(object_: seq<Byte>, d: Binding, digest: seq<Byte>): (p: seq<Byte>)
    requires |object_| == 16 && |digest| == 32
    ensures |p| == PAYLOAD
  {
    COMMIT_MAGIC + LE(2, 1) + LE(2, 96) + LE(4, PAYLOAD) + object_ + LE(4, d.logical) + LE(4, d.physical)
      + LE(8, d.lease)
    + digest + Filled(16, 0) + Filled(1952, 255)
  }

  function BuildCommit(h: Provider, c: Binding, object_: seq<Byte>, data: seq<Byte>, d: Binding): Build {
    if !Pair(c, d) || !Identity(object_, 16) || |data| != PAGE then BadArgument
    else match Validate(h, data, d)
      case Valid(_, digest) => Seal(h, c, CommitPayload(object_, d, digest))
      case HashError => NoHash
      case Argument => BadArgument
      case _ => NotBuilt
  }

  datatype Match = Matched | NoMatch | BadCall | HashFailed

  function MatchCommit(h: Provider, commit: seq<Byte>, c: Binding, object_: seq<Byte>, data: seq<Byte>,
      d: Binding): Match {
    if !Pair(c, d) || !Identity(object_, 16) then BadCall
    else match Validate(h, commit, c)
      case Valid(payload, _) =>
        (match Validate(h, data, d)
         case Valid(_, digest) => if payload[16..32] == object_ && payload[48..80] == digest then Matched else NoMatch
         case HashError => HashFailed
         case Argument => BadCall
         case _ => NoMatch)
      case HashError => HashFailed
      case Argument => BadCall
      case _ => NoMatch
  }

  // ----- The validator accepts exactly what the builder writes ------------------------------------------

  lemma FrontSlices(b: Binding)
    requires |b.device| == 16 && |b.volume| == 16
    ensures var f := Front(b);
      && f[..8] == PAGE_MAGIC && f[8..10] == LE(2, 1) && f[10..12] == LE(2, b.kind) && f[12..14] == LE(2, HEADER)
      && f[14..16] == LE(2, PAYLOAD) && f[16..32] == b.device && f[32..48] == b.volume
        && f[48..56] == LE(8, b.generation)
      && f[56..60] == LE(4, b.logical) && f[60..64] == LE(4, b.physical) && f[64..72] == LE(8, b.lease)
  {
    hide LE;
  }

  lemma FrontSame(p: seq<Byte>, q: seq<Byte>)
    requires |p| == |q| == 72
    requires p[..8] == q[..8] && p[8..10] == q[8..10] && p[10..12] == q[10..12] && p[12..14] == q[12..14]
      && p[14..16] == q[14..16]
    requires p[16..32] == q[16..32] && p[32..48] == q[32..48] && p[48..56] == q[48..56] && p[56..60] == q[56..60]
    requires p[60..64] == q[60..64] && p[64..72] == q[64..72]
    ensures p == q
  {
    Chunks(p);
    Chunks(q);
  }

  lemma Chunks(p: seq<Byte>)
    requires |p| == 72
    ensures p == p[..8] + p[8..10] + p[10..12] + p[12..14] + p[14..16] + p[16..32] + p[32..48] + p[48..56] + p[56..60]
      + p[60..64] + p[64..72]
  {
  }

  /** The fields match exactly when the bytes are those of the header. */
  lemma FrontIff(p: seq<Byte>, b: Binding)
    requires |p| == PAGE && BindingOk(b)
    ensures HeaderMatches(p, b) <==> p[..72] == Front(b) && AllAre(p[80..96], 0)
  {
    hide LE, Num, AllAre, Identity, Front;
    Powers();
    FieldIs(p[8..10], 2, 1);
    FieldIs(p[10..12], 2, b.kind);
    FieldIs(p[12..14], 2, HEADER);
    FieldIs(p[14..16], 2, PAYLOAD);
    FieldIs(p[48..56], 8, b.generation);
    FieldIs(p[56..60], 4, b.logical);
    FieldIs(p[60..64], 4, b.physical);
    FieldIs(p[64..72], 8, b.lease);
    IdentityLength(b.device);
    IdentityLength(b.volume);
    FrontSlices(b);
    FrontCuts(p);
    if HeaderMatches(p, b) { FrontSame(p[..72], Front(b)); }
  }

  lemma IdentityLength(id: seq<Byte>)
    requires Identity(id, 16)
    ensures |id| == 16
  {
  }

  lemma FrontCuts(p: seq<Byte>)
    requires |p| == PAGE
    ensures var f := p[..72];
      && f[..8] == p[..8] && f[8..10] == p[8..10] && f[10..12] == p[10..12] && f[12..14] == p[12..14]
        && f[14..16] == p[14..16]
      && f[16..32] == p[16..32] && f[32..48] == p[32..48] && f[48..56] == p[48..56] && f[56..60] == p[56..60]
      && f[60..64] == p[60..64] && f[64..72] == p[64..72]
  {
  }

  lemma FilledIs(b: seq<Byte>, x: Byte)
    ensures AllAre(b, x) <==> b == Filled(|b|, x)
  {
  }

  lemma ZeroField()
    ensures LE(4, 0) == Filled(4, 0)
  {
    assert LE(1, 0) == [0] + LE(0, 0) && LE(0, 0) == [];
    assert LE(2, 0) == [0] + LE(1, 0) && LE(3, 0) == [0] + LE(2, 0) && LE(4, 0) == [0] + LE(3, 0);
  }

  predicate SumsHold(p: seq<Byte>)
    requires |p| == PAGE
  {
    Num(p[76..80]) == Sum(p[..76] + Filled(4, 0) + p[80..96]) && Num(p[72..76]) == Sum(p[96..SUMMED])
  }

  lemma HeaderIff(p: seq<Byte>, b: Binding)
    requires |p| == PAGE && BindingOk(b)
    ensures HeaderMatches(p, b) && SumsHold(p) <==> p[..96] == Header(b, p[96..SUMMED])
  {
    hide LE, Num, AllAre, Identity, Front, Sum, HeaderMatches;
    FrontIff(p, b);
    FilledIs(p[80..96], 0);
    Powers();
    ZeroField();
    IdentityLength(b.device);
    IdentityLength(b.volume);
    var sum := Sum(p[96..SUMMED]);
    FieldIs(p[72..76], 4, sum);
    HeaderCut(p);
    var h := Header(b, p[96..SUMMED]);
    HeaderPieces(b, sum, Sum(HeaderBytes(b, sum, 0)));
    if p[..72] == Front(b) && p[72..76] == LE(4, sum) && p[80..96] == Filled(16, 0) {
      assert p[..76] == p[..72] + p[72..76];
      assert p[..76] + Filled(4, 0) + p[80..96] == HeaderBytes(b, sum, 0);
      FieldIs(p[76..80], 4, Sum(HeaderBytes(b, sum, 0)));
    }
  }

  lemma HeaderCut(p: seq<Byte>)
    requires |p| == PAGE
    ensures p[..96] == p[..72] + p[72..76] + p[76..80] + p[80..96]
    ensures p[..96][..72] == p[..72] && p[..96][72..76] == p[72..76] && p[..96][76..80] == p[76..80]
      && p[..96][80..96] == p[80..96]
  {
  }

  lemma HeaderPieces(b: Binding, payloadSum: nat, headerSum: nat)
    requires |b.device| == 16 && |b.volume| == 16
    ensures var h := HeaderBytes(b, payloadSum, headerSum);
      h[..72] == Front(b) && h[72..76] == LE(4, payloadSum) && h[76..80] == LE(4, headerSum)
        && h[80..96] == Filled(16, 0)
  {
    hide Front, LE;
  }

  lemma PageCut(p: seq<Byte>)
    requires |p| == PAGE
    ensures p == p[..96] + p[96..SUMMED] + p[SUMMED..2176] + p[2176..] && p[..SUMMED] == p[..96] + p[96..SUMMED]
  {
  }

  lemma SealPieces(h: Provider, b: Binding, payload: seq<Byte>, p: seq<Byte>)
    requires |b.device| == 16 && |b.volume| == 16 && |payload| == PAYLOAD && Seal(h, b, payload) == Built(p)
    ensures |p| == PAGE && p[..96] == Header(b, payload) && p[96..SUMMED] == payload
      && p[..SUMMED] == Header(b, payload) + payload
    ensures Answers(h, p[..SUMMED]) && p[SUMMED..2176] == h(p[..SUMMED]).value && p[2176..] == Filled(1920, 255)
  {
    hide Header;
  }

  lemma NotErased(p: seq<Byte>, b: Binding)
    requires |p| == PAGE && HeaderMatches(p, b)
    ensures !AllAre(p, 255)
  {
    assert p[..8][0] == p[0];
  }

  /** A page validates exactly when sealing its payload under the expected binding writes that very page
      (and a commit's payload reads as a commit). */
  lemma {:induction false} ValidIffBuilt(h: Provider, p: seq<Byte>, b: Binding)
    requires |p| == PAGE && BindingOk(b)
    ensures Validate(h, p, b).Valid? <==>
      (b.kind == COMMIT ==> CommitSyntax(p[96..SUMMED], b)) && Seal(h, b, p[96..SUMMED]) == Built(p)
  {
    hide HeaderMatches, CommitSyntax, Identity, AllAre, Header, SumsHold;
    IdentityLength(b.device);
    IdentityLength(b.volume);
    HeaderIff(p, b);
    PageCut(p);
    FilledIs(p[2176..], 255);
    SumsAre(p);
    if HeaderMatches(p, b) { NotErased(p, b); }
    if Seal(h, b, p[96..SUMMED]) == Built(p) { SealPieces(h, b, p[96..SUMMED], p); }
  }

  lemma SumsAre(p: seq<Byte>)
    requires |p| == PAGE
    ensures SumsHold(p) <==>
      && Num(p[76..80]) == Sum(p[..76] + Filled(4, 0) + p[80..96])
      && Num(p[72..76]) == Sum(p[96..SUMMED])
  {
  }

  /** What a DATA page was built from is what validation gives back. */
  lemma {:induction false} DataRoundTrip(h: Provider, b: Binding, payload: seq<Byte>, p: seq<Byte>)
    requires BuildData(h, b, payload) == Built(p)
    ensures Validate(h, p, b).Valid? && Validate(h, p, b).payload == payload
  {
    hide Seal, Validate;
    IdentityLength(b.device);
    IdentityLength(b.volume);
    SealPieces(h, b, payload, p);
    ValidIffBuilt(h, p, b);
    ViewIs(h, p, b);
  }

  lemma ViewIs(h: Provider, p: seq<Byte>, b: Binding)
    requires Validate(h, p, b).Valid?
    ensures |p| == PAGE && Validate(h, p, b) == Valid(p[96..SUMMED], p[SUMMED..2176]) && Answers(h, p[..SUMMED])
    ensures h(p[..SUMMED]).value == p[SUMMED..2176] && p[2176..] == Filled(1920, 255)
    ensures b.kind == COMMIT ==> CommitSyntax(p[96..SUMMED], b)
  {
    hide HeaderMatches, CommitSyntax;
    FilledIs(p[2176..], 255);
  }

  // ----- A commit matches exactly the data it was built over --------------------------------------------

  lemma CommitSlices(object_: seq<Byte>, d: Binding, digest: seq<Byte>)
    requires |object_| == 16 && |digest| == 32
    ensures var p := CommitPayload(object_, d, digest);
      && p[..8] == COMMIT_MAGIC && p[8..10] == LE(2, 1) && p[10..12] == LE(2, 96) && p[12..16] == LE(4, PAYLOAD)
      && p[16..32] == object_ && p[32..36] == LE(4, d.logical) && p[36..40] == LE(4, d.physical)
        && p[40..48] == LE(8, d.lease)
      && p[48..80] == digest && p[80..96] == Filled(16, 0) && p[96..] == Filled(1952, 255)
  {
    hide LE;
  }

  lemma CommitChunks(p: seq<Byte>)
    requires |p| == PAYLOAD
    ensures p == p[..8] + p[8..10] + p[10..12] + p[12..16] + p[16..32] + p[32..36] + p[36..40] + p[40..48] + p[48..80]
      + p[80..96] + p[96..]
  {
  }

  lemma CommitIff(p: seq<Byte>, c: Binding, d: Binding, object_: seq<Byte>, digest: seq<Byte>)
    requires |p| == PAYLOAD && Pair(c, d) && Identity(object_, 16) && |digest| == 32
    ensures CommitSyntax(p, c) && p[16..32] == object_ && p[48..80] == digest <==>
      p == CommitPayload(object_, d, digest)
  {
    hide LE, Num, AllAre, Identity;
    IdentityLength(object_);
    Powers();
    FieldIs(p[8..10], 2, 1);
    FieldIs(p[10..12], 2, 96);
    FieldIs(p[12..16], 4, PAYLOAD);
    FieldIs(p[32..36], 4, d.logical);
    FieldIs(p[36..40], 4, d.physical);
    FieldIs(p[40..48], 8, d.lease);
    FilledIs(p[80..96], 0);
    FilledIs(p[96..], 255);
    CommitSlices(object_, d, digest);
    CommitChunks(p);
  }

  /** A commit page matches a data page exactly when the commit builder, given that data page, writes that
      commit page. */
  lemma {:induction false} MatchIffBuilt(h: Provider, commit: seq<Byte>, c: Binding, object_: seq<Byte>,
      data: seq<Byte>, d: Binding)
    ensures MatchCommit(h, commit, c, object_, data, d).Matched? <==>
      BuildCommit(h, c, object_, data, d) == Built(commit)
  {
    hide Validate, Seal, Identity, CommitSyntax;
    if Pair(c, d) && Identity(object_, 16) && Validate(h, data, d).Valid? {
      PairLengths(c, d);
      IdentityLength(object_);
      ViewIs(h, data, d);
      if MatchCommit(h, commit, c, object_, data, d).Matched? {
        ViewIs(h, commit, c);
        CommitIff(commit[96..SUMMED], c, d, object_, data[SUMMED..2176]);
        ValidIffBuilt(h, commit, c);
      }
      if BuildCommit(h, c, object_, data, d) == Built(commit) {
        SealPieces(h, c, CommitPayload(object_, d, data[SUMMED..2176]), commit);
        CommitIff(commit[96..SUMMED], c, d, object_, data[SUMMED..2176]);
        ValidIffBuilt(h, commit, c);
        ViewIs(h, commit, c);
      }
    }
  }

  lemma PairLengths(c: Binding, d: Binding)
    requires Pair(c, d)
    ensures |c.device| == 16 && |c.volume| == 16 && BindingOk(c) && BindingOk(d)
  {
  }

  /** As long as digests do not collide, one commit page matches one data page. */
  lemma {:induction false} CommitPinsData(h: Provider, commit: seq<Byte>, c: Binding, object_: seq<Byte>,
      one: seq<Byte>, other: seq<Byte>, d: Binding)
    requires CollisionFree(h)
    requires MatchCommit(h, commit, c, object_, one, d).Matched?
      && MatchCommit(h, commit, c, object_, other, d).Matched?
    ensures one == other
  {
    hide Validate;
    ViewIs(h, one, d);
    ViewIs(h, other, d);
    Bodies(h, one, other);
    PageCut(one);
    PageCut(other);
  }

  lemma Bodies(h: Provider, one: seq<Byte>, other: seq<Byte>)
    requires |one| == PAGE && |other| == PAGE && CollisionFree(h) && Answers(h, one[..SUMMED])
      && Answers(h, other[..SUMMED])
    requires h(one[..SUMMED]).value == h(other[..SUMMED]).value
    ensures one[..SUMMED] == other[..SUMMED]
  {
  }
}
