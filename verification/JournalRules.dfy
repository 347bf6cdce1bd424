/**
 The v2 control journal's record format as values: what one snapshot may say (`Syntax`), which
 snapshot may follow which (`Transition`), and the candidates the six publishing operations build.

 Bitmaps (retired, quarantine, open, valid) are sets of bit positions. A 32-byte digest is the
 natural number it spells, so the all-zero digest is 0. `Seal` functions stand for SHA-256 over
 the encoded body.
 */
module JournalRules {
  const U64_MAX: nat := 0xFFFF_FFFF_FFFF_FFFF
  const I64_MAX: nat := 0x7FFF_FFFF_FFFF_FFFF
  const NO_SLOT: nat := 0xFFFF_FFFF
  const SLOTS: nat := 64
  const MAP_BLOCKS: nat := 32

  const PROVISIONING: nat := 1
  const ACTIVE: nat := 2
  const READ_ONLY: nat := 3
  const NO_LEASE: nat := 0
  const ERASE_BLOCK: nat := 1
  const PROGRAM_PAGE: nat := 2

  type Digest = nat

  /** One of the two control banks. */
  type BankIndex = n: nat | n < 2

  /** One map block's reservation: erase ID `base`, program IDs `base+1..base+64`. */
  datatype Block = Block(base: nat, valid: set<nat>, rangeSequence: nat, consumed: nat)

  type BlockTable = t: seq<Block> | |t| == MAP_BLOCKS
    witness seq(MAP_BLOCKS, _ => Block(0, {}, 0, 64))

  function UnusedTable(): BlockTable { seq(MAP_BLOCKS, _ => Block(0, {}, 0, 64)) }

  datatype Snapshot = Snapshot(
    epoch: nat, previousEpoch: nat, previousDigest: Digest,
    state: nat, bank: BankIndex, slot: nat,
    retired: set<nat>, quarantine: set<nat>, open: set<nat>,
    highWater: nat,
    pendingKind: nat, pendingSlot: nat, pendingLease: nat,
    blocks: BlockTable)

  /** A snapshot together with the digest of its encoded body. */
  datatype Root = Root(snap: Snapshot, digest: Digest)

  type Seal = Snapshot -> Digest

  ghost predicate NonZero(seal: Seal) {
    forall s: Snapshot :: seal(s) != 0
  }

  ghost predicate Sealed(seal: Seal, r: Root) {
    r.digest == seal(r.snap)
  }

  predicate RangesTouch(a: Block, b: Block) {
    b.base <= a.base + 64 && a.base <= b.base + 64
  }

  predicate HeaderSyntax(s: Snapshot) {
    && 1 <= s.epoch <= I64_MAX && s.previousEpoch == s.epoch - 1
    && s.slot <= 63 && 1 <= s.state <= 3
    && (s.epoch == 1 ==>
          s.bank == 0 && s.slot == 0 && s.highWater == 0 && s.pendingKind == 0 && s.state == PROVISIONING
          && s.retired == {} && s.quarantine == {} && s.open == {})
    && (s.epoch == 1 <==> s.previousDigest == 0)
    && s.retired <= s.quarantine && s.open !! s.quarantine
    && (s.pendingKind == NO_LEASE || s.pendingKind == ERASE_BLOCK)
    && (s.pendingKind == NO_LEASE ==> s.pendingSlot == NO_SLOT && s.pendingLease == 0)
    && (s.pendingKind != NO_LEASE ==>
          s.pendingSlot < MAP_BLOCKS && s.pendingLease != 0
          && s.pendingSlot in s.quarantine && s.pendingSlot !in s.retired)
  }

  predicate BlockSyntax(s: Snapshot, i: nat)
    requires i < MAP_BLOCKS
  {
    var b := s.blocks[i];
    && b.consumed <= 64
    && (b.base == 0 ==> b.valid == {} && b.rangeSequence == 0 && b.consumed == 64)
    && (b.base != 0 ==> b.base <= U64_MAX - 64 && b.base + 64 <= s.highWater
                        && 1 <= b.rangeSequence <= s.epoch)
    && (b.consumed < 64 ==> forall p :: p in b.valid ==> p < b.consumed)
    && (i in s.open ==> b.base != 0 && b.consumed != 64)
  }

  predicate RangesDisjoint(t: BlockTable) {
    forall i, k :: 0 <= k < i < MAP_BLOCKS && t[i].base != 0 && t[k].base != 0 ==> !RangesTouch(t[k], t[i])
  }

  predicate Syntax(s: Snapshot) {
    && HeaderSyntax(s)
    && (forall i :: 0 <= i < MAP_BLOCKS ==> BlockSyntax(s, i))
    && RangesDisjoint(s.blocks)
    && (s.pendingKind != NO_LEASE ==>
          var b := s.blocks[s.pendingSlot];
          b.base == s.pendingLease && b.valid == {} && b.consumed == 64)
  }

  function ChangedSlots(a: Snapshot, b: Snapshot): set<nat> {
    set i: nat | i < MAP_BLOCKS && b.blocks[i].base != a.blocks[i].base
  }

  predicate BlockTransition(a: Snapshot, b: Snapshot, i: nat)
    requires i < MAP_BLOCKS
  {
    var x, y := a.blocks[i], b.blocks[i];
    && (if y.base != x.base then
          && b.pendingKind == ERASE_BLOCK && b.pendingSlot == i
          && a.highWater <= U64_MAX - 65 && y.base == a.highWater + 1 && y.valid == {}
          && y.rangeSequence == b.epoch && b.highWater == y.base + 64
        else
          && x.valid <= y.valid && y.rangeSequence == x.rangeSequence
          && (y.consumed < x.consumed ==>
                a.pendingKind != NO_LEASE && a.pendingSlot == i && b.pendingKind == NO_LEASE))
    && ((i in a.quarantine && i !in b.quarantine) || (i in b.open && i !in a.open) ==>
          && a.pendingKind != NO_LEASE && a.pendingSlot == i && b.pendingKind == NO_LEASE
          && y.consumed == 0 && y.valid == {} && i in b.open && i !in b.quarantine)
  }

  /** May `b` be the record after `a`? */
  predicate Transition(a: Root, b: Snapshot) {
    var s := a.snap;
    && b.epoch == s.epoch + 1 && b.previousEpoch == s.epoch && b.previousDigest == a.digest
    && (if b.bank == s.bank then b.slot == s.slot + 1 else b.slot == 0)
    && s.retired <= b.retired && s.highWater <= b.highWater
    && !(s.state == ACTIVE && b.state == PROVISIONING)
    && !(s.state == READ_ONLY && b.state != READ_ONLY)
    && !(s.pendingKind != NO_LEASE && b.pendingKind != NO_LEASE)
    && (forall i :: 0 <= i < MAP_BLOCKS ==> BlockTransition(s, b, i))
    && var changed := ChangedSlots(s, b);
       && |changed| <= 1
       && (changed == {} ==> b.highWater == s.highWater && b.pendingKind == NO_LEASE)
  }

  // ----- Candidates ------------------------------------------------------------------------------

  function Genesis(): Snapshot {
    Snapshot(1, 0, 0, PROVISIONING, 0, 0, {}, {}, {}, 0, NO_LEASE, NO_SLOT, 0, UnusedTable())
  }

  /** The header fields publication fills in: epoch, chain digest and physical place. */
  function Stamp(current: Root, tailFresh: bool, nextSlot: nat, c: Snapshot): Snapshot {
    var stay := tailFresh && nextSlot < SLOTS;
    c.(epoch := current.snap.epoch + 1,
       previousEpoch := current.snap.epoch,
       previousDigest := current.digest,
       bank := if stay then current.snap.bank else 1 - current.snap.bank,
       slot := if stay then nextSlot else 0)
  }

  function Settled(c: Snapshot): Snapshot {
    c.(pendingKind := NO_LEASE, pendingSlot := NO_SLOT, pendingLease := 0)
  }

  function ReconcileCandidate(c: Snapshot): Snapshot {
    Settled(c).(
      quarantine := c.quarantine + c.open + (if c.pendingKind != NO_LEASE then {c.pendingSlot} else {}),
      open := {})
  }

  function ActivateCandidate(c: Snapshot): Snapshot {
    c.(state := ACTIVE)
  }

  function EraseCandidate(c: Snapshot, b: nat): Snapshot
    requires b < MAP_BLOCKS
  {
    c.(blocks := c.blocks[b := Block(c.highWater + 1, {}, c.epoch + 1, 64)],
       highWater := c.highWater + 65,
       pendingKind := ERASE_BLOCK, pendingSlot := b, pendingLease := c.highWater + 1,
       quarantine := c.quarantine + {b}, open := c.open - {b})
  }

  function ResolveCandidate(c: Snapshot, b: nat): Snapshot
    requires b < MAP_BLOCKS
  {
    Settled(c).(
      blocks := c.blocks[b := c.blocks[b].(consumed := 0)],
      quarantine := c.quarantine - {b}, open := c.open + {b})
  }

  function HistoryCandidate(c: Snapshot, working: BlockTable): Snapshot {
    c.(blocks := working,
       open := set b | b in c.open && !(b < MAP_BLOCKS && working[b].consumed == 64))
  }

  function RetireCandidate(c: Snapshot, working: BlockTable, b: nat): Snapshot
    requires b < MAP_BLOCKS
  {
    Settled(c).(
      retired := c.retired + {b}, quarantine := c.quarantine + {b}, open := c.open - {b},
      blocks := c.blocks[b := c.blocks[b].(consumed := working[b].consumed)])
  }

  /** The volatile table only ever runs ahead of the durable one, within the same reservations. */
  predicate Refines(working: BlockTable, durable: BlockTable) {
    forall i :: 0 <= i < MAP_BLOCKS ==> BlockRefines(working[i], durable[i])
  }

  predicate BlockRefines(w: Block, d: Block) {
    && w.base == d.base && w.rangeSequence == d.rangeSequence
    && d.valid <= w.valid && d.consumed <= w.consumed <= 64
    && (w.consumed < 64 ==> forall p :: p in w.valid ==> p < w.consumed)
    && (w.base == 0 ==> w.valid == {})
  }

  // ----- Self-consistency of publication ----------------------------------------------------------

  /** What every publishing operation may count on: a well-formed root and a sane tail. */
  ghost predicate CanPublish(current: Root, tailFresh: bool, nextSlot: nat) {
    && Syntax(current.snap) && current.digest != 0 && current.snap.epoch < I64_MAX
    && (tailFresh ==> nextSlot == current.snap.slot + 1)
  }

  ghost predicate Publishable(current: Root, s: Snapshot) {
    Syntax(s) && Transition(current, s)
  }

  lemma NoSlotChanged(a: Snapshot, b: Snapshot)
    requires forall i :: 0 <= i < MAP_BLOCKS ==> b.blocks[i].base == a.blocks[i].base
    ensures ChangedSlots(a, b) == {}
  {
  }

  lemma ReconcilePublishes(cur: Root, tail: bool, next: nat)
    requires CanPublish(cur, tail, next)
    ensures Publishable(cur, Stamp(cur, tail, next, ReconcileCandidate(cur.snap)))
  {
    var s := Stamp(cur, tail, next, ReconcileCandidate(cur.snap));
    assert forall i :: 0 <= i < MAP_BLOCKS ==> BlockSyntax(cur.snap, i) ==> BlockSyntax(s, i);
    NoSlotChanged(cur.snap, s);
  }

  lemma ActivatePublishes(cur: Root, tail: bool, next: nat)
    requires CanPublish(cur, tail, next)
    requires cur.snap.state == PROVISIONING && cur.snap.pendingKind == NO_LEASE
    ensures Publishable(cur, Stamp(cur, tail, next, ActivateCandidate(cur.snap)))
  {
    var s := Stamp(cur, tail, next, ActivateCandidate(cur.snap));
    assert forall i :: 0 <= i < MAP_BLOCKS ==> BlockSyntax(cur.snap, i) ==> BlockSyntax(s, i);
    NoSlotChanged(cur.snap, s);
  }

  lemma ErasePublishes(cur: Root, tail: bool, next: nat, b: nat)
    requires CanPublish(cur, tail, next)
    requires b < MAP_BLOCKS && b !in cur.snap.retired && cur.snap.pendingKind == NO_LEASE
    requires cur.snap.highWater <= U64_MAX - 65
    ensures Publishable(cur, Stamp(cur, tail, next, EraseCandidate(cur.snap, b)))
  {
    var c := cur.snap;
    var s := Stamp(cur, tail, next, EraseCandidate(c, b));
    forall i | 0 <= i < MAP_BLOCKS
      ensures BlockSyntax(s, i) && BlockTransition(c, s, i)
    {
      assert BlockSyntax(c, i) && BlockSyntax(c, b);
    }
    forall i, k | 0 <= k < i < MAP_BLOCKS && s.blocks[i].base != 0 && s.blocks[k].base != 0
      ensures !RangesTouch(s.blocks[k], s.blocks[i])
    {
      assert BlockSyntax(c, i) && BlockSyntax(c, k);
    }
    assert BlockSyntax(c, b);
    assert ChangedSlots(c, s) == {b};
  }

  lemma ResolvePublishes(cur: Root, tail: bool, next: nat, b: nat)
    requires CanPublish(cur, tail, next)
    requires cur.snap.pendingKind != NO_LEASE && cur.snap.pendingSlot == b
    ensures Publishable(cur, Stamp(cur, tail, next, ResolveCandidate(cur.snap, b)))
  {
    var c := cur.snap;
    var s := Stamp(cur, tail, next, ResolveCandidate(c, b));
    forall i | 0 <= i < MAP_BLOCKS
      ensures BlockSyntax(s, i) && BlockTransition(c, s, i)
    {
      assert BlockSyntax(c, i) && BlockSyntax(c, b);
    }
    NoSlotChanged(c, s);
  }

  lemma HistoryPublishes(cur: Root, tail: bool, next: nat, working: BlockTable)
    requires CanPublish(cur, tail, next)
    requires Refines(working, cur.snap.blocks) && cur.snap.pendingKind == NO_LEASE
    ensures Publishable(cur, Stamp(cur, tail, next, HistoryCandidate(cur.snap, working)))
  {
    var c := cur.snap;
    var s := Stamp(cur, tail, next, HistoryCandidate(c, working));
    forall i | 0 <= i < MAP_BLOCKS
      ensures BlockSyntax(s, i) && BlockTransition(c, s, i)
    {
      assert BlockSyntax(c, i) && BlockRefines(working[i], c.blocks[i]);
    }
    forall i, k | 0 <= k < i < MAP_BLOCKS && s.blocks[i].base != 0 && s.blocks[k].base != 0
      ensures !RangesTouch(s.blocks[k], s.blocks[i])
    {
      assert BlockRefines(working[i], c.blocks[i]) && BlockRefines(working[k], c.blocks[k]);
    }
    assert forall i :: 0 <= i < MAP_BLOCKS ==> BlockRefines(working[i], c.blocks[i]);
    NoSlotChanged(c, s);
  }

  lemma RetirePublishes(cur: Root, tail: bool, next: nat, working: BlockTable, b: nat)
    requires CanPublish(cur, tail, next)
    requires b < MAP_BLOCKS && Refines(working, cur.snap.blocks)
    ensures Publishable(cur, Stamp(cur, tail, next, RetireCandidate(cur.snap, working, b)))
  {
    var c := cur.snap;
    var s := Stamp(cur, tail, next, RetireCandidate(c, working, b));
    assert BlockRefines(working[b], c.blocks[b]);
    forall i | 0 <= i < MAP_BLOCKS
      ensures BlockSyntax(s, i) && BlockTransition(c, s, i)
    {
      assert BlockSyntax(c, i) && BlockSyntax(c, b);
    }
    NoSlotChanged(c, s);
  }
}
