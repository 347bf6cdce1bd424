/**
 The journal's banks as pages of bytes. The boot scan over bytes selects what the scan over cells selects,
 so crash consistency is a statement about pages.
 */
module JournalPages {
  import opened Bytes
  import opened JournalRules
  import opened JournalFlash
  import C = JournalCodec
  import W = JournalWorld

  type PageBytes = p: seq<Byte> | |p| == 4096 witness seq(4096, _ => 0)
  type PageBank = s: seq<PageBytes> | |s| == SLOTS witness seq<PageBytes>(SLOTS, _ => ErasedPage())

  function ErasedPage(): PageBytes { Filled(4096, 0xff) }

  datatype PageFlash = PageFlash(bank0: PageBank, bank1: PageBank) {
    function At(k: BankIndex): PageBank { if k == 0 then bank0 else bank1 }
  }

  /** The digest the codec puts on a snapshot's page. */
  function SealOf(k: C.Checks, v: C.Volume): Seal
    requires C.VolumeOk(v)
  {
    s => k.sha(C.Sealed(k, v, s))
  }

  /** The page a cell stands for: erased, undecodable wherever it is read, or written by the encoder. */
  ghost predicate Stands(k: C.Checks, v: C.Volume, p: PageBytes, c: Cell)
    requires C.VolumeOk(v)
  {
    match c
    case Blank => p == ErasedPage()
    case Torn => forall bank: BankIndex, slot: nat :: C.Decode(k, v, bank, slot, p).NotARecord?
    case Page(r) => Syntax(r.snap) && C.Sized(r.snap) && r.digest == SealOf(k, v)(r.snap) && p == C.Encode(k, v, r.snap)
  }

  function AsDecoded(d: C.Decoded): Decoded {
    match d
    case NotARecord => NotARecord
    case Conflict => Contradiction
    case Ok(root) => Record(root)
  }

  /** A torn cell is met by a condition on the bytes: no legacy name, and the frame does not hold, as when the
      program of a page was cut short before its digest. */
  lemma TornIff(k: C.Checks, v: C.Volume, p: PageBytes)
    requires C.VolumeOk(v)
    ensures Stands(k, v, p, Torn) <==> p[..7] != C.LEGACY && !C.Framed(k, p)
  {
    hide C.Decode, C.VolumeOk, C.Framed;
    forall bank: BankIndex, slot: nat
      ensures C.Decode(k, v, bank, slot, p).NotARecord? <==> p[..7] != C.LEGACY && !C.Framed(k, p)
    {
      C.NoRecordIff(k, v, bank, slot, p);
    }
    assert C.Decode(k, v, 0, 0, p).NotARecord? <==> p[..7] != C.LEGACY && !C.Framed(k, p);
  }

  /** Decoding the bytes is decoding the cell. */
  lemma DecodersAgree(k: C.Checks, v: C.Volume, bank: BankIndex, slot: nat, p: PageBytes, c: Cell)
    requires C.VolumeOk(v) && C.ChecksOk(k) && Stands(k, v, p, c)
    ensures AsDecoded(C.Decode(k, v, bank, slot, p)) == Decode(SealOf(k, v), bank, slot, c)
  {
    hide C.Decode, C.Encode, C.Sealed, Syntax, C.Sized, C.VolumeOk, C.ChecksOk;
    match c {
      case Blank => C.ForeignIsNoRecord(k, v, bank, slot, p);
      case Torn =>
      case Page(r) =>
        if r.snap.bank == bank && r.snap.slot == slot {
          C.EncodedDecodes(k, v, r.snap);
        } else {
          C.EncodedElsewhere(k, v, r.snap, bank, slot);
        }
    }
  }

  // ----- The scan over bytes ----------------------------------------------------------------------------

  function ScanPages(k: C.Checks, v: C.Volume, bank: BankIndex, b: PageBank, n: nat): Scan
    requires C.VolumeOk(v) && n <= SLOTS
  {
    if n == 0 then SCAN_START
    else ScanStep(ScanPages(k, v, bank, b, n - 1), AsDecoded(C.Decode(k, v, bank, n - 1, b[n - 1])))
  }

  predicate PagesContradict(k: C.Checks, v: C.Volume, f: PageFlash)
    requires C.VolumeOk(v)
  {
    exists bank: BankIndex, i: nat :: i < SLOTS && C.Decode(k, v, bank, i, f.At(bank)[i]).Conflict?
  }

  function BootPages(k: C.Checks, v: C.Volume, f: PageFlash): BootResult
    requires C.VolumeOk(v)
  {
    if PagesContradict(k, v, f) then BootResult.Conflict
    else Select(ScanPages(k, v, 0, f.bank0, SLOTS), ScanPages(k, v, 1, f.bank1, SLOTS))
  }

  ghost predicate StandsFor(k: C.Checks, v: C.Volume, f: PageFlash, g: Flash)
    requires C.VolumeOk(v)
  {
    forall bank: BankIndex, i: nat :: i < SLOTS ==> Stands(k, v, f.At(bank)[i], g.At(bank)[i])
  }

  lemma {:induction false} ScansAgree(k: C.Checks, v: C.Volume, bank: BankIndex, f: PageFlash, g: Flash, n: nat)
    requires C.VolumeOk(v) && C.ChecksOk(k) && StandsFor(k, v, f, g) && n <= SLOTS
    ensures ScanPages(k, v, bank, f.At(bank), n) == ScanBank(SealOf(k, v), bank, g.At(bank), n)
  {
    hide C.Decode, C.VolumeOk, C.ChecksOk, Decode, Stands;
    if n > 0 {
      ScansAgree(k, v, bank, f, g, n - 1);
      DecodersAgree(k, v, bank, n - 1, f.At(bank)[n - 1], g.At(bank)[n - 1]);
    }
  }

  lemma ContradictionsAgree(k: C.Checks, v: C.Volume, f: PageFlash, g: Flash)
    requires C.VolumeOk(v) && C.ChecksOk(k) && StandsFor(k, v, f, g)
    ensures PagesContradict(k, v, f) <==> Contradicted(SealOf(k, v), g)
  {
    hide C.Decode, C.VolumeOk, C.ChecksOk, Decode, Stands;
    forall bank: BankIndex, i: nat | i < SLOTS
      ensures C.Decode(k, v, bank, i, f.At(bank)[i]).Conflict? <==>
        Decode(SealOf(k, v), bank, i, g.At(bank)[i]).Contradiction?
    {
      DecodersAgree(k, v, bank, i, f.At(bank)[i], g.At(bank)[i]);
    }
  }

  /** Booting from the bytes is booting from the cells they stand for. */
  lemma {:induction false} BootsAgree(k: C.Checks, v: C.Volume, f: PageFlash, g: Flash)
    requires C.VolumeOk(v) && C.ChecksOk(k) && StandsFor(k, v, f, g)
    ensures BootPages(k, v, f) == BootScan(SealOf(k, v), g)
  {
    hide C.Decode, C.VolumeOk, C.ChecksOk, Decode, StandsFor, Select, ScanPages, ScanBank, Contradicted,
         PagesContradict;
    ContradictionsAgree(k, v, f, g);
    ScansAgree(k, v, 0, f, g, SLOTS);
    ScansAgree(k, v, 1, f, g, SLOTS);
  }

  /** A digest provider none of whose digests is all zero. */
  ghost predicate NonZeroSha(k: C.Checks) {
    forall b: seq<Byte> :: k.sha(b) != 0
  }

  lemma SealNonZero(k: C.Checks, v: C.Volume)
    requires C.VolumeOk(v) && NonZeroSha(k)
    ensures NonZero(SealOf(k, v))
  {
    hide C.Sealed, C.VolumeOk;
    forall s: Snapshot ensures SealOf(k, v)(s) != 0 { assert SealOf(k, v)(s) == k.sha(C.Sealed(k, v, s)); }
  }

  /** Crash consistency over bytes: after any run, from any pages that stand for the flash, boot selects the
      last acknowledged root or the single one in flight. */
  lemma {:induction false} PagesRecover(k: C.Checks, v: C.Volume, ops: seq<W.Op>, f: PageFlash)
    requires C.VolumeOk(v) && C.ChecksOk(k) && NonZeroSha(k)
    requires StandsFor(k, v, f, W.Run(SealOf(k, v), W.Provisioned(SealOf(k, v)), ops).flash)
    ensures var w := W.Run(SealOf(k, v), W.Provisioned(SealOf(k, v)), ops);
      || BootPages(k, v, f) == Selected(w.log.acked)
      || (w.log.flight.Some? && BootPages(k, v, f) == Selected(w.log.flight.value)
          && Transition(w.log.acked, w.log.flight.value.snap))
  {
    hide C.VolumeOk, C.ChecksOk, StandsFor, BootPages, BootScan, W.Run, Transition, C.Sealed;
    var seal := SealOf(k, v);
    SealNonZero(k, v);
    W.CrashConsistency(seal, ops);
    BootsAgree(k, v, f, W.Run(seal, W.Provisioned(seal), ops).flash);
  }

  // ----- Every flash a run reaches is some pages --------------------------------------------------------

  ghost predicate Bounded(seal: Seal) {
    forall s: Snapshot :: seal(s) < Pow256(32)
  }

  ghost predicate Written(seal: Seal, c: Cell) {
    c.Page? ==> Syntax(c.root.snap) && C.Sized(c.root.snap) && c.root.digest == seal(c.root.snap)
  }

  ghost predicate AllWritten(seal: Seal, f: Flash) {
    forall bank: BankIndex, i: nat :: i < SLOTS ==> Written(seal, f.At(bank)[i])
  }

  predicate SizedTable(t: BlockTable) {
    forall i :: 0 <= i < MAP_BLOCKS ==> forall x :: x in t[i].valid ==> x < 64
  }

  predicate SizedRoot(r: Root) { C.Sized(r.snap) && r.digest < Pow256(32) }

  /** Every page, root and table is one the page format has room for. */
  ghost predicate Roomy(seal: Seal, w: W.World) {
    && AllWritten(seal, w.flash) && SizedRoot(w.ram.current) && SizedRoot(w.log.acked)
    && (w.log.flight.Some? ==> SizedRoot(w.log.flight.value)) && SizedTable(w.ram.working)
  }

  /** A candidate before publication fills in its chain digest. */
  predicate SizedCandidate(c: Snapshot) {
    c.highWater <= U64_MAX && Small(c.retired) && Small(c.quarantine) && Small(c.open) && SizedTable(c.blocks)
  }

  predicate Small(s: set<nat>) { forall i :: i in s ==> i < 32 }

  lemma SizedIs(s: Snapshot)
    ensures C.Sized(s) <==> SizedCandidate(s) && s.previousDigest < Pow256(32)
  {
    var all := s.retired + s.quarantine + s.open;
    assert s.retired <= all && s.quarantine <= all && s.open <= all;
  }

  lemma StampedIsSized(w: W.World, c: Snapshot)
    requires SizedRoot(w.ram.current) && SizedCandidate(c)
    ensures C.Sized(W.Stamped(w, c))
  {
    hide C.Sized;
    SizedIs(W.Stamped(w, c));
  }

  lemma PutWritten(seal: Seal, f: Flash, bank: BankIndex, slot: nat, c: Cell)
    requires AllWritten(seal, f) && slot < SLOTS && Written(seal, c)
    ensures AllWritten(seal, f.Put(bank, slot, c))
  {
    hide Written;
    var g := f.Put(bank, slot, c);
    forall b: BankIndex, i: nat | i < SLOTS ensures Written(seal, g.At(b)[i]) { assert Written(seal, f.At(b)[i]); }
  }

  lemma RemainsWritten(seal: Seal, f: Flash, bank: BankIndex, kept: set<nat>, torn: set<nat>)
    requires AllWritten(seal, f)
    ensures AllWritten(seal, f.With(bank, W.Remains(f.At(bank), kept, torn)))
  {
    hide Syntax, C.Sized;
    var g := f.With(bank, W.Remains(f.At(bank), kept, torn));
    forall b: BankIndex, i: nat | i < SLOTS ensures Written(seal, g.At(b)[i]) { assert Written(seal, f.At(b)[i]); }
  }

  lemma ReadyWritten(seal: Seal, w: W.World, s: Snapshot)
    requires AllWritten(seal, w.flash)
    ensures AllWritten(seal, W.Ready(w, s))
  {
    hide Syntax, C.Sized;
    var g := W.Ready(w, s);
    forall b: BankIndex, i: nat | i < SLOTS ensures Written(seal, g.At(b)[i]) { assert Written(seal, w.flash.At(b)[i]);
      }
  }

  lemma PublishRoomy(seal: Seal, w: W.World, c: Snapshot, o: W.Outcome)
    requires Bounded(seal) && Roomy(seal, w) && SizedCandidate(c)
    ensures var v := W.Publish(seal, w, c, o);
      Roomy(seal, v) && v.ram.working == w.ram.working && v.ram.inflight == w.ram.inflight
  {
    hide Syntax, Transition, C.Sized, SizedCandidate, AllWritten, W.Stamped, W.Ready;
    StampedIsSized(w, c);
    var s := W.Stamped(w, c);
    var ready := W.Ready(w, s);
    ReadyWritten(seal, w, s);
    if w.ram.current.snap.epoch < I64_MAX && Syntax(s) && Transition(w.ram.current, s) {
      SlotInRange(s);
      match o {
        case Stopped =>
        case EraseStopped(kept, torn) => RemainsWritten(seal, w.flash, s.bank, kept, torn);
        case ProgramStopped(tear) =>
          PutWritten(seal, ready, s.bank, s.slot, W.Burn(ready.At(s.bank)[s.slot], Page(Root(s, seal(s))), tear));
        case Complete =>
          PutWritten(seal, ready, s.bank, s.slot, if ready.At(s.bank)[s.slot] != Blank then Torn
            else Page(Root(s, seal(s))));
      }
    }
  }

  lemma SlotInRange(s: Snapshot)
    requires Syntax(s)
    ensures s.slot < SLOTS
  {
  }

  lemma CandidatesSized(c: Snapshot, working: BlockTable, b: nat)
    requires C.Sized(c) && SizedTable(working) && b < MAP_BLOCKS
    ensures SizedCandidate(ActivateCandidate(c)) && SizedCandidate(ResolveCandidate(c, b))
    ensures SizedCandidate(HistoryCandidate(c, working)) && SizedCandidate(RetireCandidate(c, working, b))
    ensures c.highWater <= U64_MAX - 65 ==> SizedCandidate(EraseCandidate(c, b))
    ensures SizedTable(c.blocks)
  {
    hide C.Sized;
    SizedIs(c);
  }

  lemma ReconcileSized(c: Snapshot)
    requires C.Sized(c) && HeaderSyntax(c)
    ensures SizedCandidate(ReconcileCandidate(c))
  {
    hide C.Sized;
    SizedIs(c);
  }

  lemma RebootRoomy(seal: Seal, w: W.World, readable: bool)
    requires NonZero(seal) && W.Inv(seal, w) && Roomy(seal, w)
    ensures Roomy(seal, W.DoReboot(seal, w, readable))
  {
    hide AllWritten, C.Sized, Syntax, Transition;
    BootRecovers(seal, w.flash, if Authoritative(seal, w.flash, w.log.acked) then w.log.acked else w.log.flight.value);
    TablesSized(w.log.acked.snap);
    if w.log.flight.Some? { TablesSized(w.log.flight.value.snap); }
  }

  lemma TablesSized(s: Snapshot)
    requires C.Sized(s)
    ensures SizedTable(s.blocks)
  {
  }

  lemma AcquireRoomy(seal: Seal, w: W.World, kind: nat, slot: nat, page: nat, o: W.Outcome, late: bool)
    requires Bounded(seal) && Roomy(seal, w)
    ensures Roomy(seal, W.DoAcquire(seal, w, kind, slot, page, o, late))
  {
    hide AllWritten, C.Sized, Syntax, Transition, W.Publish, SizedCandidate, EraseCandidate;
    if !W.AcquireRefused(w, slot, page) && w.ram.current.snap.highWater <= U64_MAX - 65 {
      CandidatesSized(w.ram.current.snap, w.ram.working, slot);
      PublishRoomy(seal, w, EraseCandidate(w.ram.current.snap, slot), o);
      TablesSized(W.Publish(seal, w, EraseCandidate(w.ram.current.snap, slot), o).ram.current.snap);
    }
  }

  lemma ResolveRoomy(seal: Seal, w: W.World, l: W.Lease, o: W.Outcome, late: bool)
    requires Bounded(seal) && Roomy(seal, w) && W.InflightOk(w.ram, w.log)
    ensures Roomy(seal, W.DoResolve(seal, w, l, o, late))
  {
    hide AllWritten, C.Sized, Syntax, Transition, W.Publish, SizedCandidate, ResolveCandidate;
    if w.ram.inflight == W.Some(l) && l.slot < MAP_BLOCKS {
      CandidatesSized(w.ram.current.snap, w.ram.working, l.slot);
      PublishRoomy(seal, w, ResolveCandidate(w.ram.current.snap, l.slot), o);
      TablesSized(W.Publish(seal, w, ResolveCandidate(w.ram.current.snap, l.slot), o).ram.current.snap);
    }
  }

  lemma RetireRoomy(seal: Seal, w: W.World, slot: nat, bitmap: set<nat>, l: W.Lease, o: W.Outcome)
    requires Bounded(seal) && Roomy(seal, w)
    ensures Roomy(seal, W.DoRetire(seal, w, slot, bitmap, l, o))
  {
    hide AllWritten, C.Sized, Syntax, Transition, W.Publish, SizedCandidate, RetireCandidate;
    if slot < MAP_BLOCKS {
      CandidatesSized(w.ram.current.snap, w.ram.working, slot);
      PublishRoomy(seal, w, RetireCandidate(w.ram.current.snap, w.ram.working, slot), o);
    }
  }

  lemma ReconcileRoomy(seal: Seal, w: W.World, o: W.Outcome)
    requires Bounded(seal) && Roomy(seal, w) && HeaderSyntax(w.ram.current.snap)
    ensures Roomy(seal, W.DoReconcile(seal, w, o))
  {
    hide AllWritten, C.Sized, Syntax, Transition, W.Publish, SizedCandidate, ReconcileCandidate;
    var c := ReconcileCandidate(w.ram.current.snap);
    ReconcileSized(w.ram.current.snap);
    PublishRoomy(seal, w, c, o);
    TablesSized(W.Publish(seal, w, c, o).ram.current.snap);
  }

  lemma ActivateRoomy(seal: Seal, w: W.World, o: W.Outcome)
    requires Bounded(seal) && Roomy(seal, w)
    ensures Roomy(seal, W.DoActivate(seal, w, o)) && Roomy(seal, W.DoHistorySync(seal, w, o))
  {
    hide AllWritten, C.Sized, Syntax, Transition, W.Publish, SizedCandidate, ActivateCandidate, HistoryCandidate;
    CandidatesSized(w.ram.current.snap, w.ram.working, 0);
    PublishRoomy(seal, w, ActivateCandidate(w.ram.current.snap), o);
    PublishRoomy(seal, w, HistoryCandidate(w.ram.current.snap, w.ram.working), o);
  }

  lemma ExecRoomy(seal: Seal, w: W.World, op: W.Op)
    requires NonZero(seal) && Bounded(seal) && W.Inv(seal, w) && Roomy(seal, w)
    ensures Roomy(seal, W.Exec(seal, w, op))
  {
    hide AllWritten, C.Sized, Transition, Bounded, Authoritative, W.ValidResolved, W.TailOk, W.FreshOk, W.InflightOk,
         W.NoRepeat, W.AllAtMost, W.DoReconcile, W.DoActivate, W.DoAcquire, W.DoResolve, W.DoHistorySync, W.DoRetire,
         W.DoReboot;
    match op {
      case Reboot(readable) => RebootRoomy(seal, w, readable);
      case Reconcile(o) => if !w.ram.fault { ReconcileRoomy(seal, w, o); }
      case Activate(o) => ActivateRoomy(seal, w, o);
      case Acquire(kind, slot, page, o, late) => AcquireRoomy(seal, w, kind, slot, page, o, late);
      case Resolve(l, o, late) => if !w.ram.fault { ResolveRoomy(seal, w, l, o, late); }
      case HistorySync(o) => ActivateRoomy(seal, w, o);
      case Retire(slot, bitmap, l, o) => RetireRoomy(seal, w, slot, bitmap, l, o);
      case Denied =>
      case Fault =>
    }
  }

  lemma FirstRoomy(seal: Seal, g: Root)
    requires Bounded(seal) && g.digest == seal(g.snap) && Syntax(g.snap) && g.snap.previousDigest == 0
      && g.snap.highWater == 0
    requires g.snap.retired == g.snap.quarantine == g.snap.open == {} && SizedTable(g.snap.blocks)
    ensures Roomy(seal, W.FirstWorld(g))
  {
    hide Syntax, C.Sized;
    SizedIs(g.snap);
    SmallPower();
    var f := W.FirstFlash(g);
    assert f.At(0) == f.bank0 && f.At(1) == f.bank1;
    forall b: BankIndex, i: nat | i < SLOTS ensures Written(seal, f.At(b)[i]) {}
  }

  lemma ProvisionedRoomy(seal: Seal)
    requires Bounded(seal)
    ensures Roomy(seal, W.Provisioned(seal))
  {
    hide Syntax, Roomy, W.FirstWorld;
    var g := W.GenesisRoot(seal);
    W.GenesisSyntax(g.snap, g.snap.blocks);
    FirstRoomy(seal, g);
  }

  lemma SmallPower()
    ensures Pow256(32) > 0
  {
    PowersAgree(32);
    PowPositive(256);
  }

  lemma {:induction false} PowPositive(w: nat)
    ensures Pow2(w) > 0
  {
    if w > 0 { PowPositive(w - 1); }
  }

  lemma {:induction false} RunRoomy(seal: Seal, ops: seq<W.Op>)
    requires NonZero(seal) && Bounded(seal)
    ensures Roomy(seal, W.Run(seal, W.Provisioned(seal), ops))
  {
    hide Roomy, W.Inv, W.Exec, W.Provisioned;
    if ops == [] {
      ProvisionedRoomy(seal);
    } else {
      RunRoomy(seal, ops[..|ops| - 1]);
      W.RunKeeps(seal, ops[..|ops| - 1]);
      ExecRoomy(seal, W.Run(seal, W.Provisioned(seal), ops[..|ops| - 1]), ops[|ops| - 1]);
    }
  }

  function PageOf(k: C.Checks, v: C.Volume, c: Cell): PageBytes
    requires C.VolumeOk(v)
  {
    match c
    case Blank => ErasedPage()
    case Torn => Filled(4096, 0)
    case Page(r) => C.Encode(k, v, r.snap)
  }

  lemma PageStands(k: C.Checks, v: C.Volume, c: Cell)
    requires C.VolumeOk(v) && Written(SealOf(k, v), c)
    ensures Stands(k, v, PageOf(k, v, c), c)
  {
    hide C.Decode, C.Encode, C.Sealed, Syntax, C.Sized, C.VolumeOk;
    if c.Torn? {
      forall bank: BankIndex, slot: nat ensures C.Decode(k, v, bank, slot, Filled(4096, 0)).NotARecord? {
        C.ForeignIsNoRecord(k, v, bank, slot, Filled(4096, 0));
      }
    }
  }

  /** After every run there are pages that stand for the flash, so what `PagesRecover` says is never empty. */
  lemma {:induction false} PagesExist(k: C.Checks, v: C.Volume, ops: seq<W.Op>) returns (f: PageFlash)
    requires C.VolumeOk(v) && C.ChecksOk(k) && NonZeroSha(k)
    ensures StandsFor(k, v, f, W.Run(SealOf(k, v), W.Provisioned(SealOf(k, v)), ops).flash)
  {
    hide C.VolumeOk, C.ChecksOk, W.Run, C.Sealed, Stands, Written, PageOf;
    var seal := SealOf(k, v);
    SealNonZero(k, v);
    SealBounded(k, v);
    RunRoomy(seal, ops);
    var g := W.Run(seal, W.Provisioned(seal), ops).flash;
    f := PageFlash(seq<PageBytes>(SLOTS, (i: nat) requires i < SLOTS => PageOf(k, v, g.bank0[i])),
                   seq<PageBytes>(SLOTS, (i: nat) requires i < SLOTS => PageOf(k, v, g.bank1[i])));
    forall bank: BankIndex, i: nat | i < SLOTS ensures Stands(k, v, f.At(bank)[i], g.At(bank)[i]) {
      assert Written(seal, g.At(bank)[i]);
      PageStands(k, v, g.At(bank)[i]);
    }
  }

  lemma SealBounded(k: C.Checks, v: C.Volume)
    requires C.VolumeOk(v) && C.ChecksOk(k)
    ensures Bounded(SealOf(k, v))
  {
    hide C.Sealed, C.VolumeOk;
    forall s: Snapshot ensures SealOf(k, v)(s) < Pow256(32) { assert SealOf(k, v)(s) == k.sha(C.Sealed(k, v, s)); }
  }
}
