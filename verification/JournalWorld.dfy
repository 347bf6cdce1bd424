/**
 Whole runs of the control journal: every operation as a step on flash, RAM and history, with each
 way an operation can stop half way as an explicit outcome, and power loss as `Reboot`.

 Over every run from a completed provision: boot recovers the last acknowledged record or the
 single one in flight, no lease ID is ever handed out twice, and no candidate is ever rejected.
 */
module JournalWorld {
  import opened JournalRules
  import opened JournalFlash

  datatype Option<+T> = None | Some(value: T)

  datatype Lease = Lease(sequence: nat, leaseId: nat, rangeBase: nat, kind: nat, slot: nat, page: nat)

  datatype Ram = Ram(
    fault: bool, booted: bool, reconciled: bool, tailFresh: bool, nextSlot: nat,
    current: Root, working: BlockTable, freshMap: set<nat>, inflight: Option<Lease>)

  /** History: the last acknowledged root, a record whose program was started but not acknowledged,
      every lease ID handed out, and every program lease that was resolved. */
  datatype Log = Log(acked: Root, flight: Option<Root>, issued: seq<nat>, resolved: set<nat>)

  datatype World = World(flash: Flash, ram: Ram, log: Log)

  /** How far a program operation got before it was interrupted. */
  datatype Tear = Untouched | TornCell | WholeCell

  datatype Outcome =
    | Complete
    | Stopped                                      // before the flash was touched
    | EraseStopped(kept: set<nat>, torn: set<nat>) // recycling erase ran into trouble
    | ProgramStopped(tear: Tear)                   // program issued, never acknowledged

  datatype Op =
    | Reconcile(o: Outcome)
    | Activate(o: Outcome)
    | Acquire(kind: nat, slot: nat, page: nat, o: Outcome, late: bool)
    | Resolve(lease: Lease, o: Outcome, late: bool)
    | HistorySync(o: Outcome)
    | Retire(slot: nat, bitmap: set<nat>, lease: Lease, o: Outcome)
    | Denied // an operation that admission turned down: nothing changes
    | Fault
    | Reboot(readable: bool)

  function Remains(b: Bank, kept: set<nat>, torn: set<nat>): Bank {
    seq(SLOTS, i requires 0 <= i < SLOTS => if i in kept then b[i] else if i in torn then Torn else Blank)
  }

  /** Programming only ever succeeds on an erased cell. */
  function Burn(was: Cell, now: Cell, t: Tear): Cell {
    if was != Blank then Torn
    else match t
      case Untouched => Blank
      case TornCell => Torn
      case WholeCell => now
  }

  function Faulted(w: World): World {
    w.(ram := w.ram.(fault := true, reconciled := false))
  }

  /** The closing deadline check of an operation. */
  function Closing(w: World, late: bool): World {
    if late then Faulted(w) else w
  }

  function Stamped(w: World, c: Snapshot): Snapshot {
    Stamp(w.ram.current, w.ram.tailFresh, w.ram.nextSlot, c)
  }

  function Ready(w: World, s: Snapshot): Flash {
    if s.bank != w.ram.current.snap.bank then w.flash.With(s.bank, BlankBank()) else w.flash
  }

  function Publish(seal: Seal, w: World, c: Snapshot, o: Outcome): World {
    var s := Stamped(w, c);
    if w.ram.current.snap.epoch >= I64_MAX || !Syntax(s) || !Transition(w.ram.current, s) then Faulted(w)
    else
      var root := Root(s, seal(s));
      var ready := Ready(w, s);
      match o
      case Stopped => Faulted(w)
      case EraseStopped(kept, torn) =>
        if s.bank != w.ram.current.snap.bank
        then Faulted(w.(flash := w.flash.With(s.bank, Remains(w.flash.At(s.bank), kept, torn))))
        else Faulted(w)
      case ProgramStopped(tear) =>
        Faulted(w.(flash := ready.Put(s.bank, s.slot, Burn(ready.At(s.bank)[s.slot], Page(root), tear)),
                   ram := w.ram.(tailFresh := false), log := w.log.(flight := Some(root))))
      case Complete =>
        if ready.At(s.bank)[s.slot] != Blank
        then Faulted(w.(flash := ready.Put(s.bank, s.slot, Torn), ram := w.ram.(tailFresh := false),
          log := w.log.(flight := Some(root))))
        else w.(flash := ready.Put(s.bank, s.slot, Page(root)),
                ram := w.ram.(current := root, tailFresh := true, nextSlot := s.slot + 1),
                log := w.log.(acked := root))
  }

  function DoReconcile(seal: Seal, w: World, o: Outcome): World {
    if !w.ram.booted || w.ram.reconciled || w.ram.inflight.Some? then w
    else
      var v := Publish(seal, w, ReconcileCandidate(w.ram.current.snap), o);
      if v.ram.fault then v
      else v.(ram := v.ram.(reconciled := true, working := v.ram.current.snap.blocks))
  }

  function DoActivate(seal: Seal, w: World, o: Outcome): World {
    if !w.ram.booted || !w.ram.reconciled || w.ram.inflight.Some?
       || w.ram.current.snap.pendingKind != NO_LEASE || w.ram.current.snap.state != PROVISIONING then w
    else Publish(seal, w, ActivateCandidate(w.ram.current.snap), o)
  }

  predicate AcquireRefused(w: World, slot: nat, page: nat) {
    slot >= MAP_BLOCKS || page >= 64 || !w.ram.booted || !w.ram.reconciled || w.ram.inflight.Some?
    || w.ram.current.snap.pendingKind != NO_LEASE || w.ram.current.snap.state == READ_ONLY
    || slot in w.ram.current.snap.retired
  }

  function Ticket(w: World, kind: nat, slot: nat, page: nat): Lease
    requires slot < MAP_BLOCKS
  {
    var base := w.ram.working[slot].base;
    Lease(w.ram.current.snap.epoch, if kind == PROGRAM_PAGE then base + 1 + page else base, base, kind, slot, page)
  }

  /** The lease goes out before the closing deadline check; `late` is that check failing. */
  function HandOut(w: World, kind: nat, slot: nat, page: nat, late: bool): World
    requires slot < MAP_BLOCKS
  {
    var l := Ticket(w, kind, slot, page);
    Closing(w.(ram := w.ram.(inflight := Some(l)), log := w.log.(issued := w.log.issued + [l.leaseId])), late)
  }

  function AfterErase(v: World, slot: nat, page: nat, late: bool): World
    requires slot < MAP_BLOCKS
  {
    HandOut(v.(ram := v.ram.(working := v.ram.working[slot := v.ram.current.snap.blocks[slot]],
                             freshMap := v.ram.freshMap - {slot})),
            ERASE_BLOCK, slot, page, late)
  }

  function AfterProgram(w: World, slot: nat, page: nat, late: bool): World
    requires slot < MAP_BLOCKS
  {
    HandOut(w.(ram := w.ram.(working := w.ram.working[slot := w.ram.working[slot].(consumed := page + 1)])),
            PROGRAM_PAGE, slot, page, late)
  }

  function DoAcquire(seal: Seal, w: World, kind: nat, slot: nat, page: nat, o: Outcome, late: bool): World {
    if AcquireRefused(w, slot, page) then w
    else if kind == ERASE_BLOCK then
      if page != 0 || w.ram.current.snap.highWater > U64_MAX - 65 then Faulted(w)
      else
        var v := Publish(seal, w, EraseCandidate(w.ram.current.snap, slot), o);
        if v.ram.fault then v else AfterErase(v, slot, page, late)
    else if kind == PROGRAM_PAGE then
      if slot !in w.ram.freshMap || page < w.ram.working[slot].consumed then Faulted(w)
      else AfterProgram(w, slot, page, late)
    else w
  }

  function AfterResolve(v: World, l: Lease, late: bool): World
    requires l.slot < MAP_BLOCKS
  {
    Closing(v.(ram := v.ram.(working := v.ram.working[l.slot := v.ram.current.snap.blocks[l.slot]],
                             freshMap := v.ram.freshMap + {l.slot}, inflight := None)), late)
  }

  function AfterPage(w: World, l: Lease, late: bool): World
    requires l.slot < MAP_BLOCKS
  {
    var x := w.ram.working[l.slot];
    Closing(w.(ram := w.ram.(working := w.ram.working[l.slot := x.(valid := x.valid + {l.page})], inflight := None),
               log := w.log.(resolved := w.log.resolved + {l.leaseId})), late)
  }

  function DoResolve(seal: Seal, w: World, l: Lease, o: Outcome, late: bool): World {
    if w.ram.inflight != Some(l) || l.slot >= MAP_BLOCKS then Faulted(w)
    else if l.kind == ERASE_BLOCK then
      var v := Publish(seal, w, ResolveCandidate(w.ram.current.snap, l.slot), o);
      if v.ram.fault then v else AfterResolve(v, l, late)
    else AfterPage(w, l, late)
  }

  function DoHistorySync(seal: Seal, w: World, o: Outcome): World {
    if !w.ram.booted || !w.ram.reconciled || w.ram.inflight.Some?
       || w.ram.current.snap.pendingKind != NO_LEASE || w.ram.current.snap.state == READ_ONLY then w
    else Publish(seal, w, HistoryCandidate(w.ram.current.snap, w.ram.working), o)
  }

  function AfterRetire(v: World, slot: nat): World {
    v.(ram := v.ram.(freshMap := v.ram.freshMap - {slot}, inflight := None))
  }

  function DoRetire(seal: Seal, w: World, slot: nat, bitmap: set<nat>, l: Lease, o: Outcome): World {
    if slot >= MAP_BLOCKS || bitmap != w.ram.current.snap.retired + {slot} || w.ram.inflight != Some(l) then Faulted(w)
    else
      var v := Publish(seal, w, RetireCandidate(w.ram.current.snap, w.ram.working, slot), o);
      if v.ram.fault then v else AfterRetire(v, slot)
  }

  function Started(r: Root): Ram {
    Ram(false, true, false, false, 0, r, r.snap.blocks, {}, None)
  }

  /** Power returns: RAM is new, boot reads the banks. */
  function DoReboot(seal: Seal, w: World, readable: bool): World {
    var boot := BootScan(seal, w.flash);
    if readable && boot.Selected?
    then w.(ram := Started(boot.root), log := w.log.(acked := boot.root, flight := None))
    else w.(ram := Started(w.log.acked).(fault := true, booted := false))
  }

  function Exec(seal: Seal, w: World, op: Op): World {
    if op.Reboot? then DoReboot(seal, w, op.readable)
    else if w.ram.fault then w
    else match op
      case Reconcile(o) => DoReconcile(seal, w, o)
      case Activate(o) => DoActivate(seal, w, o)
      case Acquire(kind, slot, page, o, late) => DoAcquire(seal, w, kind, slot, page, o, late)
      case Resolve(l, o, late) => DoResolve(seal, w, l, o, late)
      case HistorySync(o) => DoHistorySync(seal, w, o)
      case Retire(slot, bitmap, l, o) => DoRetire(seal, w, slot, bitmap, l, o)
      case Denied => w
      case Fault => Faulted(w)
      case Reboot(_) => w
  }

  function Run(seal: Seal, w: World, ops: seq<Op>): World {
    if ops == [] then w else Exec(seal, Run(seal, w, ops[..|ops|-1]), ops[|ops|-1])
  }

  function GenesisRoot(seal: Seal): Root { Root(Genesis(), seal(Genesis())) }

  /** Both banks erased, then one record in bank 0, slot 0. */
  function FirstFlash(root: Root): Flash {
    Flash(BlankBank()[0 := Page(root)], BlankBank())
  }

  /** The world a completed provision leaves. */
  function FirstWorld(g: Root): World {
    World(FirstFlash(g), Ram(false, true, true, true, 1, g, g.snap.blocks, {}, None), Log(g, None, [], {}))
  }

  function Provisioned(seal: Seal): World {
    FirstWorld(GenesisRoot(seal))
  }

  // ----- The invariant -----------------------------------------------------------------------------

  ghost predicate Good(seal: Seal, r: Root) {
    Sealed(seal, r) && r.digest != 0 && Syntax(r.snap)
  }

  ghost predicate ValidResolved(t: BlockTable, resolved: set<nat>) {
    forall b, p :: 0 <= b < MAP_BLOCKS && p in t[b].valid ==> t[b].base + 1 + p in resolved
  }

  ghost predicate NoRepeat(s: seq<nat>) {
    forall i, j :: 0 <= i < j < |s| ==> s[i] != s[j]
  }

  ghost predicate AllAtMost(s: seq<nat>, bound: nat) {
    forall i :: 0 <= i < |s| ==> s[i] <= bound
  }

  ghost predicate Durable(seal: Seal, w: World) {
    var a, f := w.log.acked, w.log.flight;
    && Good(seal, a)
    && (f.Some? ==> Good(seal, f.value) && Transition(a, f.value.snap)
                    && ValidResolved(f.value.snap.blocks, w.log.resolved))
    && (Authoritative(seal, w.flash, a) || (f.Some? && Authoritative(seal, w.flash, f.value)))
    && NoRepeat(w.log.issued) && AllAtMost(w.log.issued, a.snap.highWater)
    && ValidResolved(a.snap.blocks, w.log.resolved)
  }

  /** No program lease at or beyond `consumed` has been handed out from this reservation. */
  ghost predicate Unspent(x: Block, issued: seq<nat>) {
    forall i :: 0 <= i < |issued| && x.base < issued[i] <= x.base + 64 ==> issued[i] <= x.base + x.consumed
  }

  ghost predicate FreshOk(r: Ram, issued: seq<nat>) {
    forall b :: b in r.freshMap ==>
      && b < MAP_BLOCKS && r.working[b].base != 0 && b !in r.current.snap.retired
      && !(r.current.snap.pendingKind != NO_LEASE && r.current.snap.pendingSlot == b)
      && Unspent(r.working[b], issued)
  }

  ghost predicate InflightOk(r: Ram, log: Log) {
    match r.inflight
    case None => r.reconciled ==> r.current.snap.pendingKind == NO_LEASE
    case Some(l) =>
      && r.reconciled && l.slot < MAP_BLOCKS && l.page < 64
      && l.leaseId in log.issued && l.slot !in r.current.snap.retired
      && (l.kind == ERASE_BLOCK || l.kind == PROGRAM_PAGE)
      && l.rangeBase == r.working[l.slot].base
      && (l.kind == ERASE_BLOCK ==>
            && r.current.snap.pendingKind != NO_LEASE && r.current.snap.pendingSlot == l.slot
            && l.leaseId == r.current.snap.pendingLease
            && AllAtMost(log.issued, l.leaseId))
      && (l.kind == PROGRAM_PAGE ==>
            && r.current.snap.pendingKind == NO_LEASE && l.slot in r.freshMap
            && l.leaseId == r.working[l.slot].base + 1 + l.page
            && r.working[l.slot].consumed == l.page + 1)
  }

  ghost predicate TailOk(r: Ram, f: Flash) {
    r.tailFresh ==>
      && r.nextSlot == r.current.snap.slot + 1
      && forall i :: r.nextSlot <= i < SLOTS ==> f.At(r.current.snap.bank)[i] == Blank
  }

  ghost predicate Live(seal: Seal, w: World) {
    var r := w.ram;
    && r.booted && r.current == w.log.acked && w.log.flight.None?
    && Authoritative(seal, w.flash, r.current)
    && Refines(r.working, r.current.snap.blocks) && ValidResolved(r.working, w.log.resolved)
    && TailOk(r, w.flash)
    && FreshOk(r, w.log.issued)
    && InflightOk(r, w.log)
    && (!r.reconciled ==> r.freshMap == {} && r.inflight.None?)
  }

  ghost predicate Inv(seal: Seal, w: World) {
    Durable(seal, w) && (!w.ram.fault ==> Live(seal, w))
  }

  // ----- One publication ---------------------------------------------------------------------------

  /** What a publication promises when its candidate is well formed. */
  ghost predicate Landed(seal: Seal, w: World, c: Snapshot, v: World) {
    var s := Stamped(w, c);
    && v.ram == w.ram.(current := Root(s, seal(s)), tailFresh := true, nextSlot := s.slot + 1)
    && v.log == w.log.(acked := Root(s, seal(s)))
    && Good(seal, v.ram.current) && Authoritative(seal, v.flash, v.ram.current) && TailOk(v.ram, v.flash)
  }

  /** An interrupted program in the root's own bank leaves the old root or the new one. */
  lemma AppendFails(seal: Seal, f: Flash, cur: Root, root: Root, cell: Cell)
    requires Authoritative(seal, f, cur) && Good(seal, root) && Transition(cur, root.snap)
    requires root.snap.bank == cur.snap.bank && (cell.Page? ==> cell == Page(root))
    ensures var g := f.Put(root.snap.bank, root.snap.slot, cell);
            Authoritative(seal, g, cur) || Authoritative(seal, g, root)
  {
    if cell.Page? {
      AppendKeepsAuthority(seal, f, cur, root);
    } else {
      TornTailKeepsAuthority(seal, f, cur, root.snap.slot, cell);
    }
  }

  /** The same for a program at the head of the freshly erased other bank. */
  lemma SwitchFails(seal: Seal, f: Flash, cur: Root, root: Root, cell: Cell)
    requires Authoritative(seal, f, cur) && Good(seal, root) && Transition(cur, root.snap)
    requires root.snap.bank != cur.snap.bank && (cell.Page? ==> cell == Page(root))
    ensures var g := f.With(root.snap.bank, BlankBank()).Put(root.snap.bank, 0, cell);
            Authoritative(seal, g, cur) || Authoritative(seal, g, root)
  {
    if cell.Page? {
      SwitchKeepsAuthority(seal, f, cur, root);
    } else {
      DamageKeepsAuthority(seal, f, cur, BlankBank()[0 := cell]);
    }
  }

  lemma {:induction false} FailedPublish(seal: Seal, w: World, c: Snapshot, o: Outcome)
    requires Inv(seal, w) && !w.ram.fault && NonZero(seal)
    requires w.ram.current.snap.epoch < I64_MAX ==> Publishable(w.ram.current, Stamped(w, c))
    requires ValidResolved(c.blocks, w.log.resolved)
    requires Publish(seal, w, c, o).ram.fault
    ensures Durable(seal, Publish(seal, w, c, o))
  {
    var s := Stamped(w, c);
    var cur := w.ram.current;
    if cur.snap.epoch < I64_MAX {
      var root := Root(s, seal(s));
      var v := Publish(seal, w, c, o);
      if o.EraseStopped? {
        if s.bank != cur.snap.bank {
          DamageKeepsAuthority(seal, w.flash, cur, v.flash.At(s.bank));
        }
      } else if !o.Stopped? {
        var cell := v.flash.At(s.bank)[s.slot];
        if s.bank == cur.snap.bank {
          AppendFails(seal, w.flash, cur, root, cell);
        } else {
          SwitchFails(seal, w.flash, cur, root, cell);
        }
      }
    }
  }

  lemma LandedPublish(seal: Seal, w: World, c: Snapshot, o: Outcome)
    requires Inv(seal, w) && !w.ram.fault && NonZero(seal)
    requires w.ram.current.snap.epoch < I64_MAX ==> Publishable(w.ram.current, Stamped(w, c))
    requires !Publish(seal, w, c, o).ram.fault
    ensures Landed(seal, w, c, Publish(seal, w, c, o))
  {
    var s := Stamped(w, c);
    var root := Root(s, seal(s));
    if s.bank == w.ram.current.snap.bank {
      AppendKeepsAuthority(seal, w.flash, w.ram.current, root);
    } else {
      SwitchKeepsAuthority(seal, w.flash, w.ram.current, root);
    }
  }

  // ----- Lease arithmetic ---------------------------------------------------------------------------

  lemma RefinesItself(s: Snapshot)
    requires Syntax(s)
    ensures Refines(s.blocks, s.blocks)
  {
    forall i | 0 <= i < MAP_BLOCKS
      ensures BlockRefines(s.blocks[i], s.blocks[i])
    {
      assert BlockSyntax(s, i);
    }
  }

  /** Every reservation, seen through the working table, ends at or below the high water mark. */
  lemma RangeBelowWater(r: Ram, b: nat)
    requires Syntax(r.current.snap) && Refines(r.working, r.current.snap.blocks)
    requires b < MAP_BLOCKS && r.working[b].base != 0
    ensures r.working[b].base + 64 <= r.current.snap.highWater
  {
    assert BlockSyntax(r.current.snap, b) && BlockRefines(r.working[b], r.current.snap.blocks[b]);
  }

  lemma RangesApart(r: Ram, b: nat, c: nat)
    requires Syntax(r.current.snap) && Refines(r.working, r.current.snap.blocks)
    requires b < MAP_BLOCKS && c < MAP_BLOCKS && b != c
    requires r.working[b].base != 0 && r.working[c].base != 0
    ensures r.working[b].base + 64 < r.working[c].base || r.working[c].base + 64 < r.working[b].base
  {
    assert BlockRefines(r.working[b], r.current.snap.blocks[b]);
    assert BlockRefines(r.working[c], r.current.snap.blocks[c]);
    assert RangesDisjoint(r.current.snap.blocks);
  }

  lemma IssueAbove(issued: seq<nat>, bound: nat, id: nat)
    requires NoRepeat(issued) && AllAtMost(issued, bound) && id > bound
    ensures NoRepeat(issued + [id]) && AllAtMost(issued + [id], id)
  {
  }

  /** An ID issued outside a reservation leaves what that reservation has spent unchanged. */
  lemma IssueElsewhere(x: Block, issued: seq<nat>, id: nat)
    requires Unspent(x, issued) && !(x.base < id <= x.base + 64)
    ensures Unspent(x, issued + [id])
  {
  }

  /** The next program ID of an unspent reservation has never been issued. */
  lemma NextIsNew(x: Block, issued: seq<nat>, page: nat)
    requires NoRepeat(issued) && Unspent(x, issued) && x.consumed <= page < 64
    ensures NoRepeat(issued + [x.base + 1 + page])
    ensures Unspent(x.(consumed := page + 1), issued + [x.base + 1 + page])
  {
  }

  lemma SetRefines(working: BlockTable, durable: BlockTable, b: nat, x: Block, y: Block)
    requires b < MAP_BLOCKS && Refines(working, durable) && BlockRefines(x, y)
    ensures Refines(working[b := x], durable[b := y])
  {
    var ww, dd := working[b := x], durable[b := y];
    forall i | 0 <= i < MAP_BLOCKS
      ensures BlockRefines(ww[i], dd[i])
    {
      assert BlockRefines(working[i], durable[i]);
    }
  }

  lemma SetResolved(t: BlockTable, resolved: set<nat>, b: nat, x: Block)
    requires b < MAP_BLOCKS && ValidResolved(t, resolved)
    requires forall p :: p in x.valid ==> x.base + 1 + p in resolved
    ensures ValidResolved(t[b := x], resolved)
  {
  }

  /** Freshness survives an ID that lies above every reservation. */
  lemma FreshAfterErase(r: Ram, issued: seq<nat>, slot: nat, id: nat, s: Ram)
    requires Syntax(r.current.snap) && Refines(r.working, r.current.snap.blocks) && FreshOk(r, issued)
    requires slot < MAP_BLOCKS && id > r.current.snap.highWater
    requires s.freshMap == r.freshMap - {slot} && s.working == r.working[slot := s.working[slot]]
    requires s.current.snap.retired == r.current.snap.retired && s.current.snap.pendingSlot == slot
    ensures FreshOk(s, issued + [id])
  {
    forall b | b in s.freshMap
      ensures Unspent(s.working[b], issued + [id])
    {
      RangeBelowWater(r, b);
      IssueElsewhere(r.working[b], issued, id);
    }
  }

  lemma FreshAfterProgram(r: Ram, issued: seq<nat>, slot: nat, page: nat, s: Ram)
    requires Syntax(r.current.snap) && Refines(r.working, r.current.snap.blocks) && FreshOk(r, issued)
    requires slot in r.freshMap && r.working[slot].consumed <= page < 64 && NoRepeat(issued)
    requires s.freshMap == r.freshMap && s.current == r.current
    requires s.working == r.working[slot := r.working[slot].(consumed := page + 1)]
    ensures FreshOk(s, issued + [r.working[slot].base + 1 + page])
  {
    var id := r.working[slot].base + 1 + page;
    NextIsNew(r.working[slot], issued, page);
    forall b | b in s.freshMap && b != slot
      ensures Unspent(s.working[b], issued + [id])
    {
      RangesApart(r, b, slot);
      IssueElsewhere(r.working[b], issued, id);
    }
  }

  lemma IssuedIn(issued: seq<nat>, id: nat)
    ensures id in issued + [id]
  {
    assert (issued + [id])[|issued|] == id;
  }

  // ----- Every operation keeps the invariant ---------------------------------------------------------

  lemma ReconcileKeeps(seal: Seal, w: World, o: Outcome)
    requires Inv(seal, w) && !w.ram.fault && NonZero(seal)
    ensures Inv(seal, DoReconcile(seal, w, o))
  {
    if w.ram.booted && !w.ram.reconciled && w.ram.inflight.None? {
      var c := ReconcileCandidate(w.ram.current.snap);
      if w.ram.current.snap.epoch < I64_MAX {
        ReconcilePublishes(w.ram.current, w.ram.tailFresh, w.ram.nextSlot);
      }
      if Publish(seal, w, c, o).ram.fault {
        FailedPublish(seal, w, c, o);
      } else {
        LandedPublish(seal, w, c, o);
        RefinesItself(Publish(seal, w, c, o).ram.current.snap);
      }
    }
  }

  lemma ActivateKeeps(seal: Seal, w: World, o: Outcome)
    requires Inv(seal, w) && !w.ram.fault && NonZero(seal)
    ensures Inv(seal, DoActivate(seal, w, o))
  {
    if DoActivate(seal, w, o) != w {
      var c := ActivateCandidate(w.ram.current.snap);
      if w.ram.current.snap.epoch < I64_MAX {
        ActivatePublishes(w.ram.current, w.ram.tailFresh, w.ram.nextSlot);
      }
      if Publish(seal, w, c, o).ram.fault {
        FailedPublish(seal, w, c, o);
      } else {
        LandedPublish(seal, w, c, o);
      }
    }
  }

  /** A new reservation's first ID lies above everything ever issued. */
  lemma {:induction false} EraseKeeps(seal: Seal, w: World, slot: nat, page: nat, o: Outcome, late: bool)
    requires Inv(seal, w) && !w.ram.fault && NonZero(seal)
    ensures Inv(seal, DoAcquire(seal, w, ERASE_BLOCK, slot, page, o, late))
  {
    if !AcquireRefused(w, slot, page) && page == 0 && w.ram.current.snap.highWater <= U64_MAX - 65 {
      var c := EraseCandidate(w.ram.current.snap, slot);
      if w.ram.current.snap.epoch < I64_MAX {
        ErasePublishes(w.ram.current, w.ram.tailFresh, w.ram.nextSlot, slot);
      }
      if Publish(seal, w, c, o).ram.fault {
        FailedPublish(seal, w, c, o);
      } else {
        LandedPublish(seal, w, c, o);
        EraseHandsOut(seal, w, slot, Publish(seal, w, c, o), late);
      }
    }
  }

  lemma EraseHandsOut(seal: Seal, w: World, slot: nat, v: World, late: bool)
    requires Inv(seal, w) && !w.ram.fault && !AcquireRefused(w, slot, 0)
    requires w.ram.current.snap.highWater <= U64_MAX - 65
    requires Landed(seal, w, EraseCandidate(w.ram.current.snap, slot), v)
    ensures Inv(seal, AfterErase(v, slot, 0, late))
  {
    hide Authoritative, Transition, NonZero;
    var r := w.ram;
    var id := r.current.snap.highWater + 1;
    var x := Block(id, {}, r.current.snap.epoch + 1, 64);
    IssueAbove(w.log.issued, r.current.snap.highWater, id);
    IssuedIn(w.log.issued, id);
    SetRefines(r.working, r.current.snap.blocks, slot, x, x);
    FreshAfterErase(r, w.log.issued, slot, id, AfterErase(v, slot, 0, late).ram);
    SetResolved(r.working, w.log.resolved, slot, x);
    SetResolved(r.current.snap.blocks, w.log.resolved, slot, x);
  }

  lemma ProgramKeeps(seal: Seal, w: World, slot: nat, page: nat, late: bool)
    requires Inv(seal, w) && !w.ram.fault && !AcquireRefused(w, slot, page)
    requires slot in w.ram.freshMap && page >= w.ram.working[slot].consumed
    ensures Inv(seal, AfterProgram(w, slot, page, late))
  {
    hide Authoritative, Transition, NonZero;
    var r := w.ram;
    var x := r.working[slot];
    NextIsNew(x, w.log.issued, page);
    IssuedIn(w.log.issued, x.base + 1 + page);
    RangeBelowWater(r, slot);
    assert BlockRefines(x, r.current.snap.blocks[slot]);
    SetRefines(r.working, r.current.snap.blocks, slot, x.(consumed := page + 1), r.current.snap.blocks[slot]);
    FreshAfterProgram(r, w.log.issued, slot, page, AfterProgram(w, slot, page, late).ram);
    SetResolved(r.working, w.log.resolved, slot, x.(consumed := page + 1));
  }

  lemma {:induction false} ResolveKeeps(seal: Seal, w: World, l: Lease, o: Outcome, late: bool)
    requires Inv(seal, w) && !w.ram.fault && NonZero(seal)
    ensures Inv(seal, DoResolve(seal, w, l, o, late))
  {
    if w.ram.inflight == Some(l) {
      if l.kind == ERASE_BLOCK {
        var c := ResolveCandidate(w.ram.current.snap, l.slot);
        if w.ram.current.snap.epoch < I64_MAX {
          ResolvePublishes(w.ram.current, w.ram.tailFresh, w.ram.nextSlot, l.slot);
        }
        if Publish(seal, w, c, o).ram.fault {
          FailedPublish(seal, w, c, o);
        } else {
          LandedPublish(seal, w, c, o);
          EraseResolves(seal, w, l, Publish(seal, w, c, o), late);
        }
      } else {
        ProgramResolves(seal, w, l, late);
      }
    }
  }

  lemma EraseResolves(seal: Seal, w: World, l: Lease, v: World, late: bool)
    requires Inv(seal, w) && !w.ram.fault && w.ram.inflight == Some(l) && l.kind == ERASE_BLOCK
    requires Landed(seal, w, ResolveCandidate(w.ram.current.snap, l.slot), v)
    ensures Inv(seal, AfterResolve(v, l, late))
  {
    var r := w.ram;
    var x := r.current.snap.blocks[l.slot].(consumed := 0);
    assert BlockSyntax(r.current.snap, l.slot);
    SetRefines(r.working, r.current.snap.blocks, l.slot, x, x);
    SetResolved(r.working, w.log.resolved, l.slot, x);
    SetResolved(r.current.snap.blocks, w.log.resolved, l.slot, x);
    assert Unspent(x, w.log.issued);
  }

  lemma ProgramResolves(seal: Seal, w: World, l: Lease, late: bool)
    requires Inv(seal, w) && !w.ram.fault && w.ram.inflight == Some(l) && l.kind == PROGRAM_PAGE
    ensures Inv(seal, AfterPage(w, l, late))
  {
    var r := w.ram;
    var x := r.working[l.slot];
    assert BlockRefines(x, r.current.snap.blocks[l.slot]);
    SetRefines(r.working, r.current.snap.blocks, l.slot, x.(valid := x.valid + {l.page}),
      r.current.snap.blocks[l.slot]);
    SetResolved(r.working, w.log.resolved + {l.leaseId}, l.slot, x.(valid := x.valid + {l.page}));
  }

  lemma {:induction false} HistoryKeeps(seal: Seal, w: World, o: Outcome)
    requires Inv(seal, w) && !w.ram.fault && NonZero(seal)
    ensures Inv(seal, DoHistorySync(seal, w, o))
  {
    if DoHistorySync(seal, w, o) != w {
      var c := HistoryCandidate(w.ram.current.snap, w.ram.working);
      if w.ram.current.snap.epoch < I64_MAX {
        HistoryPublishes(w.ram.current, w.ram.tailFresh, w.ram.nextSlot, w.ram.working);
      }
      if Publish(seal, w, c, o).ram.fault {
        FailedPublish(seal, w, c, o);
      } else {
        LandedPublish(seal, w, c, o);
        RefinesItself(Publish(seal, w, c, o).ram.current.snap);
      }
    }
  }

  lemma {:induction false} RetireKeeps(seal: Seal, w: World, slot: nat, bitmap: set<nat>, l: Lease, o: Outcome)
    requires Inv(seal, w) && !w.ram.fault && NonZero(seal)
    ensures Inv(seal, DoRetire(seal, w, slot, bitmap, l, o))
  {
    if slot < MAP_BLOCKS && bitmap == w.ram.current.snap.retired + {slot} && w.ram.inflight == Some(l) {
      var c := RetireCandidate(w.ram.current.snap, w.ram.working, slot);
      if w.ram.current.snap.epoch < I64_MAX {
        RetirePublishes(w.ram.current, w.ram.tailFresh, w.ram.nextSlot, w.ram.working, slot);
      }
      if Publish(seal, w, c, o).ram.fault {
        FailedPublish(seal, w, c, o);
      } else {
        LandedPublish(seal, w, c, o);
        RetireLands(seal, w, slot, Publish(seal, w, c, o));
      }
    }
  }

  lemma RetireLands(seal: Seal, w: World, slot: nat, v: World)
    requires Inv(seal, w) && !w.ram.fault && w.ram.inflight.Some? && slot < MAP_BLOCKS
    requires Landed(seal, w, RetireCandidate(w.ram.current.snap, w.ram.working, slot), v)
    ensures Inv(seal, AfterRetire(v, slot))
  {
    var r := w.ram;
    var x := r.current.snap.blocks[slot].(consumed := r.working[slot].consumed);
    assert BlockRefines(r.working[slot], r.current.snap.blocks[slot]);
    SetRefines(r.working, r.current.snap.blocks, slot, r.working[slot], x);
    assert r.working[slot := r.working[slot]] == r.working;
    SetResolved(r.current.snap.blocks, w.log.resolved, slot, x);
  }

  /** Boot after a power loss at any point: the root it takes over is the acknowledged one or the
      one in flight, and everything issued lies at or below that root's high water mark. */
  lemma RebootKeeps(seal: Seal, w: World, readable: bool)
    requires Inv(seal, w)
    ensures Inv(seal, DoReboot(seal, w, readable))
  {
    var root := if Authoritative(seal, w.flash, w.log.acked) then w.log.acked else w.log.flight.value;
    BootRecovers(seal, w.flash, root);
    RefinesItself(root.snap);
  }

  lemma ExecKeeps(seal: Seal, w: World, op: Op)
    requires Inv(seal, w) && NonZero(seal)
    ensures Inv(seal, Exec(seal, w, op))
  {
    hide Inv, DoReboot, DoReconcile, DoActivate, DoAcquire, DoResolve, DoHistorySync, DoRetire, Faulted;
    if op.Reboot? {
      RebootKeeps(seal, w, op.readable);
    } else if !w.ram.fault {
      match op
      case Reconcile(o) => ReconcileKeeps(seal, w, o);
      case Activate(o) => ActivateKeeps(seal, w, o);
      case Acquire(kind, slot, page, o, late) => AcquireKeeps(seal, w, kind, slot, page, o, late);
      case Resolve(l, o, late) => ResolveKeeps(seal, w, l, o, late);
      case HistorySync(o) => HistoryKeeps(seal, w, o);
      case Retire(slot, bitmap, l, o) => RetireKeeps(seal, w, slot, bitmap, l, o);
      case Denied =>
      case Fault => FaultKeeps(seal, w);
      case Reboot(_) =>
    }
  }

  lemma FaultKeeps(seal: Seal, w: World)
    requires Inv(seal, w)
    ensures Inv(seal, Faulted(w))
  {
    hide Authoritative;
  }

  lemma AcquireKeeps(seal: Seal, w: World, kind: nat, slot: nat, page: nat, o: Outcome, late: bool)
    requires Inv(seal, w) && !w.ram.fault && NonZero(seal)
    ensures Inv(seal, DoAcquire(seal, w, kind, slot, page, o, late))
  {
    hide Inv, Publish, AfterErase, AfterProgram, HandOut;
    if kind == ERASE_BLOCK {
      EraseKeeps(seal, w, slot, page, o, late);
    } else if kind == PROGRAM_PAGE && !AcquireRefused(w, slot, page)
              && slot in w.ram.freshMap && page >= w.ram.working[slot].consumed {
      ProgramKeeps(seal, w, slot, page, late);
    } else {
      FaultKeeps(seal, w);
    }
  }

  lemma FirstWorldInv(seal: Seal, g: Root)
    requires Good(seal, g) && g.snap.bank == 0 && g.snap.slot == 0 && g.snap.pendingKind == NO_LEASE
    requires forall i :: 0 <= i < MAP_BLOCKS ==> g.snap.blocks[i].valid == {}
    ensures Inv(seal, FirstWorld(g))
  {
    FirstRecord(seal, g);
    RefinesItself(g.snap);
  }

  lemma ProvisionedInv(seal: Seal)
    requires NonZero(seal)
    ensures Inv(seal, Provisioned(seal))
  {
    var g := GenesisRoot(seal);
    GenesisSyntax(g.snap, g.snap.blocks);
    FirstWorldInv(seal, g);
  }

  lemma GenesisSyntax(g: Snapshot, t: BlockTable)
    requires t == UnusedTable()
    requires g == Snapshot(1, 0, 0, PROVISIONING, 0, 0, {}, {}, {}, 0, NO_LEASE, NO_SLOT, 0, t)
    ensures Syntax(g)
    ensures forall i :: 0 <= i < MAP_BLOCKS ==> g.blocks[i].valid == {}
  {
    assert forall i :: 0 <= i < MAP_BLOCKS ==> t[i] == Block(0, {}, 0, 64);
    assert forall i :: 0 <= i < MAP_BLOCKS ==> BlockSyntax(g, i);
  }

  lemma FirstRecord(seal: Seal, root: Root)
    requires Sealed(seal, root) && Syntax(root.snap) && root.snap.bank == 0 && root.snap.slot == 0
    ensures Authoritative(seal, FirstFlash(root), root)
    ensures forall i :: 1 <= i < SLOTS ==> FirstFlash(root).bank0[i] == Blank
  {
    var f := FirstFlash(root);
    assert f.At(0) == f.bank0 && f.At(1) == f.bank1;
    assert Chain(seal, 0, f.bank0, 1);
  }

  lemma {:induction false} RunKeeps(seal: Seal, ops: seq<Op>)
    requires NonZero(seal)
    ensures Inv(seal, Run(seal, Provisioned(seal), ops))
  {
    hide Inv, Exec, Provisioned, NonZero;
    if ops == [] {
      ProvisionedInv(seal);
    } else {
      RunKeeps(seal, ops[..|ops|-1]);
      ExecKeeps(seal, Run(seal, Provisioned(seal), ops[..|ops|-1]), ops[|ops|-1]);
    }
  }

  // ----- Main results --------------------------------------------------------------------------------

  /** Crash consistency: after any run, whatever was interrupted, boot selects the last acknowledged
      root or the single one in flight. */
  lemma CrashConsistency(seal: Seal, ops: seq<Op>)
    requires NonZero(seal)
    ensures var w := Run(seal, Provisioned(seal), ops);
            || BootScan(seal, w.flash) == Selected(w.log.acked)
            || (w.log.flight.Some? && BootScan(seal, w.flash) == Selected(w.log.flight.value)
                && Transition(w.log.acked, w.log.flight.value.snap))
  {
    RunKeeps(seal, ops);
    var w := Run(seal, Provisioned(seal), ops);
    BootRecovers(seal, w.flash,
                 if Authoritative(seal, w.flash, w.log.acked) then w.log.acked else w.log.flight.value);
  }

  /** While the journal is up and unfaulted the flash stands for exactly what it holds in RAM. */
  lemma {:induction false} AcknowledgedMeansDurable(seal: Seal, ops: seq<Op>)
    requires NonZero(seal)
    ensures var w := Run(seal, Provisioned(seal), ops);
            !w.ram.fault ==> BootScan(seal, w.flash) == Selected(w.ram.current) && w.ram.current == w.log.acked
  {
    RunKeeps(seal, ops);
    var w := Run(seal, Provisioned(seal), ops);
    if !w.ram.fault {
      BootRecovers(seal, w.flash, w.ram.current);
    }
  }

  /** Lifetime uniqueness: over every run, across boots and crashes, no lease ID is issued twice. */
  lemma {:induction false} LeaseIdsAreUnique(seal: Seal, ops: seq<Op>)
    requires NonZero(seal)
    ensures NoRepeat(Run(seal, Provisioned(seal), ops).log.issued)
  {
    RunKeeps(seal, ops);
  }

  /** No operation and no boot ever takes the journal back to an older root. */
  lemma {:induction false} RootsNeverRegress(seal: Seal, ops: seq<Op>, op: Op)
    requires NonZero(seal)
    ensures var w := Run(seal, Provisioned(seal), ops);
            var v := Exec(seal, w, op);
            && v.log.acked.snap.epoch >= w.log.acked.snap.epoch
            && v.log.acked.snap.highWater >= w.log.acked.snap.highWater
            && w.log.acked.snap.retired <= v.log.acked.snap.retired
  {
    RunKeeps(seal, ops);
    RegressStep(seal, Run(seal, Provisioned(seal), ops), op);
  }

  lemma PublishAdvances(seal: Seal, w: World, c: Snapshot, o: Outcome)
    requires w.ram.current == w.log.acked
    ensures var a := Publish(seal, w, c, o).log.acked;
            a == w.log.acked || Transition(w.log.acked, a.snap)
  {
  }

  lemma RebootAdvances(seal: Seal, w: World, readable: bool)
    requires Inv(seal, w)
    ensures var a := DoReboot(seal, w, readable).log.acked;
            a == w.log.acked || Transition(w.log.acked, a.snap)
  {
    hide Authoritative, Transition;
    BootRecovers(seal, w.flash,
                 if Authoritative(seal, w.flash, w.log.acked) then w.log.acked else w.log.flight.value);
  }

  lemma RegressStep(seal: Seal, w: World, op: Op)
    requires Inv(seal, w)
    ensures var a := Exec(seal, w, op).log.acked;
            a == w.log.acked || Transition(w.log.acked, a.snap)
  {
    hide Publish, Transition, DoReboot, Authoritative, TailOk, FreshOk, InflightOk, Refines, ValidResolved, NoRepeat,
         AllAtMost;
    var c := w.ram.current.snap;
    if op.Reboot? {
      RebootAdvances(seal, w, op.readable);
    } else if !w.ram.fault {
      match op
      case Reconcile(o) => PublishAdvances(seal, w, ReconcileCandidate(c), o);
      case Activate(o) => PublishAdvances(seal, w, ActivateCandidate(c), o);
      case Acquire(_, slot, _, o, _) =>
        if slot < MAP_BLOCKS {
          PublishAdvances(seal, w, EraseCandidate(c, slot), o);
        }
      case Resolve(l, o, _) =>
        if l.slot < MAP_BLOCKS {
          PublishAdvances(seal, w, ResolveCandidate(c, l.slot), o);
        }
      case HistorySync(o) => PublishAdvances(seal, w, HistoryCandidate(c, w.ram.working), o);
      case Retire(slot, _, _, o) =>
        if slot < MAP_BLOCKS {
          PublishAdvances(seal, w, RetireCandidate(c, w.ram.working, slot), o);
        }
      case _ =>
    }
  }

  /** The record an operation would publish, if its guards let it get that far. */
  function Proposal(w: World, op: Op): Option<Snapshot> {
    var r := w.ram;
    if r.fault || !r.booted then None
    else match op
      case Reconcile(_) =>
        if r.reconciled || r.inflight.Some? then None else Some(ReconcileCandidate(r.current.snap))
      case Activate(_) =>
        if !r.reconciled || r.inflight.Some? || r.current.snap.pendingKind != NO_LEASE
           || r.current.snap.state != PROVISIONING then None
        else Some(ActivateCandidate(r.current.snap))
      case Acquire(kind, slot, page, _, _) =>
        if AcquireRefused(w, slot, page) || kind != ERASE_BLOCK || page != 0
           || r.current.snap.highWater > U64_MAX - 65 then None
        else Some(EraseCandidate(r.current.snap, slot))
      case Resolve(l, _, _) =>
        if r.inflight != Some(l) || l.slot >= MAP_BLOCKS || l.kind != ERASE_BLOCK then None
        else Some(ResolveCandidate(r.current.snap, l.slot))
      case HistorySync(_) =>
        if !r.reconciled || r.inflight.Some? || r.current.snap.pendingKind != NO_LEASE
           || r.current.snap.state == READ_ONLY then None
        else Some(HistoryCandidate(r.current.snap, r.working))
      case Retire(slot, bitmap, l, _) =>
        if slot >= MAP_BLOCKS || bitmap != r.current.snap.retired + {slot} || r.inflight != Some(l) then None
        else Some(RetireCandidate(r.current.snap, r.working, slot))
      case _ => None
  }

  /** Self-consistency: whatever a reachable journal proposes is well formed, follows its root, and
      goes to an erased page. The refusals inside publication are for corruption only. */
  lemma {:induction false} ProposalsAreAccepted(seal: Seal, ops: seq<Op>, op: Op)
    requires NonZero(seal)
    ensures var w := Run(seal, Provisioned(seal), ops);
            var c := Proposal(w, op);
            c.Some? && w.ram.current.snap.epoch < I64_MAX ==>
              var s := Stamped(w, c.value);
              && Publishable(w.ram.current, s)
              && Ready(w, s).At(s.bank)[s.slot] == Blank
  {
    RunKeeps(seal, ops);
    var w := Run(seal, Provisioned(seal), ops);
    if Proposal(w, op).Some? && w.ram.current.snap.epoch < I64_MAX {
      ProposalAccepted(seal, w, op);
    }
  }

  lemma ProposalAccepted(seal: Seal, w: World, op: Op)
    requires Inv(seal, w) && Proposal(w, op).Some? && w.ram.current.snap.epoch < I64_MAX
    ensures var s := Stamped(w, Proposal(w, op).value);
            && Publishable(w.ram.current, s)
            && Ready(w, s).At(s.bank)[s.slot] == Blank
  {
    var r := w.ram;
    match op {
      case Reconcile(_) => ReconcilePublishes(r.current, r.tailFresh, r.nextSlot);
      case Activate(_) => ActivatePublishes(r.current, r.tailFresh, r.nextSlot);
      case Acquire(_, slot, _, _, _) => ErasePublishes(r.current, r.tailFresh, r.nextSlot, slot);
      case Resolve(l, _, _) => ResolvePublishes(r.current, r.tailFresh, r.nextSlot, l.slot);
      case HistorySync(_) => HistoryPublishes(r.current, r.tailFresh, r.nextSlot, r.working);
      case Retire(slot, _, _, _) => RetirePublishes(r.current, r.tailFresh, r.nextSlot, r.working, slot);
    }
    TargetIsErased(seal, w, Proposal(w, op).value);
  }

  lemma TargetIsErased(seal: Seal, w: World, c: Snapshot)
    requires Inv(seal, w) && !w.ram.fault && Syntax(Stamped(w, c))
    ensures var s := Stamped(w, c); Ready(w, s).At(s.bank)[s.slot] == Blank
  {
  }

  // ----- What the journal says about a map page -------------------------------------------------------

  datatype PageInfo = Unused | Committed(leaseId: nat) | Abandoned

  function InfoOf(w: World, slot: nat, page: nat): PageInfo
    requires slot < MAP_BLOCKS && page < 64
  {
    var x := w.ram.working[slot];
    if page in x.valid then Committed(x.base + 1 + page)
    else if slot in w.ram.freshMap && slot !in w.ram.current.snap.retired && page >= x.consumed then Unused
    else Abandoned
  }

  /** UNUSED: no lease for this page was ever handed out from the block's reservation.
      COMMITTED: exactly this lease was handed out and its program resolved. */
  lemma {:induction false} PageReportsAreHistory(seal: Seal, ops: seq<Op>, slot: nat, page: nat)
    requires NonZero(seal) && slot < MAP_BLOCKS && page < 64
    ensures var w := Run(seal, Provisioned(seal), ops);
            !w.ram.fault ==>
              && (InfoOf(w, slot, page).Unused? ==> w.ram.working[slot].base + 1 + page !in w.log.issued)
              && (InfoOf(w, slot, page).Committed? ==> InfoOf(w, slot, page).leaseId in w.log.resolved)
  {
    RunKeeps(seal, ops);
    var w := Run(seal, Provisioned(seal), ops);
    if !w.ram.fault {
      ReportIsHistory(w, slot, page);
    }
  }

  lemma ReportIsHistory(w: World, slot: nat, page: nat)
    requires FreshOk(w.ram, w.log.issued) && ValidResolved(w.ram.working, w.log.resolved)
    requires slot < MAP_BLOCKS && page < 64
    ensures InfoOf(w, slot, page).Unused? ==> w.ram.working[slot].base + 1 + page !in w.log.issued
    ensures InfoOf(w, slot, page).Committed? ==> InfoOf(w, slot, page).leaseId in w.log.resolved
  {
  }

  /** After a cold boot nothing is UNUSED, and a COMMITTED page was resolved before the power loss
      and is in the recovered record. */
  lemma {:induction false} ColdBootReports(seal: Seal, ops: seq<Op>, slot: nat, page: nat)
    requires NonZero(seal) && slot < MAP_BLOCKS && page < 64
    ensures var before := Run(seal, Provisioned(seal), ops);
            var w := Exec(seal, before, Reboot(true));
            && !w.ram.fault && !InfoOf(w, slot, page).Unused?
            && (InfoOf(w, slot, page).Committed? ==>
                  && InfoOf(w, slot, page).leaseId in before.log.resolved
                  && page in w.log.acked.snap.blocks[slot].valid)
  {
    var before := Run(seal, Provisioned(seal), ops);
    CrashConsistency(seal, ops);
    var w := DoReboot(seal, before, true);
    assert w.ram == Started(w.log.acked) && w.log.resolved == before.log.resolved;
    assert FreshOk(w.ram, w.log.issued);
    assert ValidResolved(w.ram.working, w.log.resolved) by {
      RunKeeps(seal, ops);
    }
    ReportIsHistory(w, slot, page);
  }
}
