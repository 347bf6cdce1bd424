/**
 The control journal as it runs: an object whose operations update their fields in place, talking
 to flash and clock ports whose answers are arbitrary. Every operation is shown to be one step of
 `JournalWorld.Exec`, so the results over whole runs are results about these objects.
 */
module JournalMachine {
  import opened JournalRules
  import opened JournalFlash
  import opened JournalWorld

  datatype Rc = OK | NO_ROOT | ARGUMENT | REFUSED | FAULT | CONFLICT

  /** The flash port. Status codes promise nothing: an erase or program may report success or
      failure whatever it did to the cells; only reads that report success are believed. */
  class ControlFlash {
    var cells: Flash

    constructor (cells: Flash)
      ensures this.cells == cells
    {
      this.cells := cells;
    }

    method Erase(k: BankIndex) returns (ok: bool, ghost kept: set<nat>, ghost torn: set<nat>)
      modifies this
      ensures cells == old(cells).With(k, Remains(old(cells).At(k), kept, torn))
    {
      ok := *;
      var keep: set<nat> := *;
      var tear: set<nat> := *;
      kept, torn := keep, tear;
      cells := cells.With(k, Remains(cells.At(k), keep, tear));
    }

    method Program(k: BankIndex, slot: nat, page: Cell) returns (ok: bool, ghost tear: Tear)
      requires slot < SLOTS
      modifies this
      ensures cells == old(cells).Put(k, slot, Burn(old(cells).At(k)[slot], page, tear))
    {
      ok := *;
      var t: Tear := *;
      tear := t;
      cells := cells.Put(k, slot, Burn(cells.At(k)[slot], page, t));
    }

    method Read(k: BankIndex, slot: nat) returns (ok: bool, cell: Cell)
      requires slot < SLOTS
      ensures ok ==> cell == cells.At(k)[slot]
    {
      ok := *;
      cell := cells.At(k)[slot];
    }
  }

  class Journal {
    const seal: Seal
    const flash: ControlFlash
    var fault: bool
    var booted: bool
    var reconciled: bool
    var tailFresh: bool
    var nextSlot: nat
    var current: Root
    var candidate: Snapshot
    var working: BlockTable
    var freshMap: set<nat>
    var inflight: Option<Lease>
    ghost var log: Log

    ghost function View(): World
      reads this, flash
    {
      World(flash.cells,
            Ram(fault, booted, reconciled, tailFresh, nextSlot, current, working, freshMap, inflight), log)
    }

    /** Power-on: nothing is known until boot or provision. */
    constructor (seal: Seal, flash: ControlFlash, ghost log: Log)
      ensures this.seal == seal && this.flash == flash && this.log == log
      ensures !fault && !booted && !reconciled && freshMap == {} && inflight.None? && current.snap.epoch == 0
    {
      this.seal, this.flash, this.log := seal, flash, log;
      fault, booted, reconciled, tailFresh, nextSlot := false, false, false, false, 0;
      current := Root(Genesis().(epoch := 0), 0);
      candidate := Genesis();
      working := UnusedTable();
      freshMap, inflight := {}, None;
    }

    method Fail()
      modifies this`fault, this`reconciled
      ensures fault && !reconciled
    {
      fault, reconciled := true, false;
    }

    /** The clock: any call may find that the deadline has passed or time ran backwards. */
    method Check() returns (ok: bool)
      requires !fault
      modifies this`fault, this`reconciled
      ensures ok ==> View() == old(View())
      ensures !ok ==> fault && View() == Faulted(old(View()))
    {
      ok := *;
      if !ok { Fail(); }
    }

    /** Admission: `FAULT` with the fault latched, or a plain refusal that changes nothing. */
    method Admitted() returns (rc: Rc)
      requires !fault
      modifies this`fault, this`reconciled
      ensures rc == OK || rc == FAULT || rc == REFUSED
      ensures rc != FAULT ==> View() == old(View())
      ensures rc == FAULT ==> fault && View() == Faulted(old(View()))
    {
      var inTime := Check();
      if !inTime { return FAULT; }
      var latched: bool := *;
      if latched { Fail(); return FAULT; }
      var admit: bool := *;
      if !admit { return REFUSED; }
      inTime := Check();
      rc := if inTime then OK else FAULT;
    }

    /** Erase one bank and read all of it back: success means every page is erased. */
    method EraseFresh(k: BankIndex) returns (rc: Rc, ghost began: bool, ghost kept: set<nat>, ghost torn: set<nat>)
      requires !fault
      modifies this`fault, this`reconciled, flash
      ensures !began ==> flash.cells == old(flash.cells)
      ensures began ==> flash.cells == old(flash.cells).With(k, Remains(old(flash.cells).At(k), kept, torn))
      ensures rc == OK ==> flash.cells == old(flash.cells).With(k, BlankBank())
      ensures rc == OK ==> fault == old(fault) && reconciled == old(reconciled)
      ensures rc == OK || rc == FAULT || rc == REFUSED
    {
      began, kept, torn := false, {}, {};
      rc := Admitted();
      if rc != OK { return; }
      var ok;
      ok, kept, torn := flash.Erase(k);
      began := true;
      if !ok { Fail(); return FAULT, began, kept, torn; }
      var inTime := Check();
      if !inTime { return FAULT, began, kept, torn; }
      var p := 0;
      while p < SLOTS
        invariant 0 <= p <= SLOTS && !fault && reconciled == old(reconciled)
        invariant flash.cells == old(flash.cells).With(k, Remains(old(flash.cells).At(k), kept, torn))
        invariant forall i :: 0 <= i < p ==> flash.cells.At(k)[i] == Blank
      {
        inTime := Check();
        if !inTime { return FAULT, began, kept, torn; }
        var cell;
        ok, cell := flash.Read(k, p);
        if !ok || cell != Blank { Fail(); return FAULT, began, kept, torn; }
        p := p + 1;
      }
      assert flash.cells.At(k) == BlankBank();
      return OK, began, kept, torn;
    }

    /** Read one page between two looks at the clock: true only when it is exactly `page`. */
    method ReadsBack(k: BankIndex, slot: nat, page: Cell) returns (ok: bool)
      requires !fault && slot < SLOTS
      modifies this`fault, this`reconciled
      ensures ok ==> !fault && reconciled == old(reconciled) && flash.cells.At(k)[slot] == page
      ensures !ok ==> fault && !reconciled
    {
      var inTime := Check();
      if !inTime { return false; }
      var back;
      ok, back := flash.Read(k, slot);
      if !ok || back != page { Fail(); return false; }
      ok := Check();
    }

    /** Program the candidate and believe it only after an exact readback. */
    method Commit(s: Snapshot) returns (rc: Rc, ghost o: Outcome)
      requires !fault && s.slot < SLOTS
      modifies this, flash
      ensures unchanged(`booted) && unchanged(`working) && unchanged(`freshMap) && unchanged(`inflight)
      ensures unchanged(`candidate)
      ensures rc == OK ==>
                && o.Complete? && !fault && reconciled == old(reconciled)
                && old(flash.cells).At(s.bank)[s.slot] == Blank
                && flash.cells == old(flash.cells).Put(s.bank, s.slot, Page(Root(s, seal(s))))
                && current == Root(s, seal(s)) && tailFresh && nextSlot == s.slot + 1
                && log == old(log).(acked := current)
      ensures rc != OK ==> rc == FAULT && fault && !reconciled && unchanged(`current) && unchanged(`nextSlot)
      ensures rc != OK && o.Stopped? ==> flash.cells == old(flash.cells) && unchanged(`tailFresh) && unchanged(`log)
      ensures rc != OK && !o.Stopped? ==>
                && o.ProgramStopped? && !tailFresh && log == old(log).(flight := Some(Root(s, seal(s))))
                && flash.cells == old(flash.cells).Put(s.bank, s.slot,
                     Burn(old(flash.cells).At(s.bank)[s.slot], Page(Root(s, seal(s))), o.tear))
    {
      var inTime := Check();
      if !inTime { return FAULT, Stopped; }
      // Consumed before the program: no failed attempt can reuse this tail.
      tailFresh := false;
      var root := Root(s, seal(s));
      var page := Page(root);
      var ok;
      ghost var tear;
      ok, tear := flash.Program(s.bank, s.slot, page);
      o := ProgramStopped(tear);
      log := log.(flight := Some(root));
      if !ok { Fail(); return FAULT, o; }
      ok := ReadsBack(s.bank, s.slot, page);
      if !ok { return FAULT, o; }
      log := old(log).(acked := root);
      current, tailFresh, nextSlot := root, true, s.slot + 1;
      return OK, Complete;
    }

    /** Publish the candidate as the next record. A hash provider that fails reads as CONFLICT,
        as does a candidate that breaks the rules; nothing else does. */
    method Publish() returns (rc: Rc, ghost o: Outcome, ghost hashed: bool)
      requires !fault
      modifies this, flash
      ensures View() == JournalWorld.Publish(seal, old(View()), old(candidate), o)
      ensures rc == OK <==> !fault
      ensures rc == CONFLICT && hashed ==> !Publishable(old(current), Stamped(old(View()), old(candidate)))
    {
      hide Transition, BlockSyntax, RangesDisjoint, Stamp;
      hashed := true;
      rc := Admitted();
      if rc != OK { Fail(); return rc, Stopped, hashed; }
      if current.snap.epoch >= I64_MAX { Fail(); return REFUSED, Stopped, hashed; }
      candidate := Stamp(current, tailFresh, nextSlot, candidate);
      var digestOk: bool := *;
      hashed := digestOk;
      if !Syntax(candidate) || !digestOk { Fail(); return CONFLICT, Stopped, hashed; }
      if !Transition(current, candidate) { Fail(); return CONFLICT, Stopped, hashed; }
      if candidate.bank != current.snap.bank {
        ghost var began, kept, torn;
        rc, began, kept, torn := EraseFresh(candidate.bank);
        if rc != OK { Fail(); return rc, if began then EraseStopped(kept, torn) else Stopped, hashed; }
        assert flash.cells == Ready(old(View()), candidate);
        rc, o := Commit(candidate);
        if rc != OK && o.Stopped? {
          assert Remains(old(flash.cells).At(candidate.bank), {}, {}) == BlankBank();
          o := EraseStopped({}, {});
        }
      } else {
        rc, o := Commit(candidate);
      }
    }

    // ----- Operations ------------------------------------------------------------------------------

    /** Entry: refuses when faulted, faults when the clock or the deadline is wrong. */
    method Begin() returns (rc: Rc)
      modifies this`fault, this`reconciled
      ensures rc == OK || rc == FAULT
      ensures rc == OK ==> !fault && View() == old(View())
      ensures rc == FAULT ==> fault && View() == (if old(fault) then old(View()) else Faulted(old(View())))
    {
      if fault { return FAULT; }
      var inTime := Check();
      rc := if inTime then OK else FAULT;
    }

    /** Abandon whatever was open or pending when power was lost. Once per boot. */
    method Reconcile() returns (rc: Rc, ghost op: Op)
      modifies this, flash
      ensures View() == Exec(seal, old(View()), op) && (op == Op.Fault || op.Reconcile?)
      ensures rc == OK ==> !fault && reconciled && freshMap == old(freshMap) && working == current.snap.blocks
    {
      op := Op.Fault;
      rc := Begin();
      if rc == OK {
        if !booted || reconciled || inflight.Some? {
          rc, op := REFUSED, Op.Reconcile(Stopped);
        } else {
          candidate := ReconcileCandidate(current.snap);
          ghost var o, hashed;
          rc, o, hashed := Publish();
          op := Op.Reconcile(o);
          if rc == OK { reconciled, working := true, current.snap.blocks; }
        }
      }
    }

    method Activate() returns (rc: Rc, ghost op: Op)
      modifies this, flash
      ensures View() == Exec(seal, old(View()), op) && (op == Op.Fault || op == Op.Denied || op.Activate?)
      ensures rc == OK ==> !fault && current.snap.state == ACTIVE
    {
      op := Op.Fault;
      rc := Begin();
      if rc == OK {
        if !booted || !reconciled || inflight.Some? || current.snap.pendingKind != NO_LEASE
           || current.snap.state != PROVISIONING {
          rc, op := REFUSED, Op.Activate(Stopped);
        } else {
          rc := Admitted();
          if rc == REFUSED {
            op := Op.Denied;
          } else if rc == OK {
            candidate := ActivateCandidate(current.snap);
            ghost var o, hashed;
            rc, o, hashed := Publish();
            op := Op.Activate(o);
          }
        }
      }
    }

    /** Write the ticket out and close with a deadline check. */
    method HandOut(kind: nat, slot: nat, page: nat) returns (rc: Rc, lease: Lease, ghost late: bool)
      requires !fault && slot < MAP_BLOCKS
      modifies this`inflight, this`log, this`fault, this`reconciled
      ensures View() == JournalWorld.HandOut(old(View()), kind, slot, page, late)
      ensures late == (rc != OK) && inflight == Some(lease) && lease == Ticket(old(View()), kind, slot, page)
      ensures rc == OK <==> !fault
    {
      lease := Lease(current.snap.epoch, working[slot].base + (if kind == PROGRAM_PAGE then 1 + page else 0),
                     working[slot].base, kind, slot, page);
      inflight := Some(lease);
      log := log.(issued := log.issued + [lease.leaseId]);
      var inTime := Check();
      rc := if inTime then OK else FAULT;
      late := !inTime;
    }

    method AcquireErase(slot: nat, page: nat) returns (rc: Rc, lease: Option<Lease>, ghost o: Outcome, ghost late: bool)
      requires !fault && !AcquireRefused(View(), slot, page)
      modifies this, flash
      ensures View() == DoAcquire(seal, old(View()), ERASE_BLOCK, slot, page, o, late)
      ensures rc == OK ==> !fault && lease.Some? && inflight == lease
    {
      o, late, lease := Stopped, false, None;
      if page != 0 || current.snap.highWater > U64_MAX - 65 { Fail(); return REFUSED, None, o, late; }
      candidate := EraseCandidate(current.snap, slot);
      ghost var hashed;
      rc, o, hashed := Publish();
      if rc == OK {
        working := working[slot := current.snap.blocks[slot]];
        freshMap := freshMap - {slot};
        var l;
        rc, l, late := HandOut(ERASE_BLOCK, slot, page);
        lease := Some(l);
      }
    }

    method AcquireProgram(slot: nat, page: nat) returns (rc: Rc, lease: Option<Lease>, ghost late: bool)
      requires !fault && !AcquireRefused(View(), slot, page)
      modifies this
      ensures View() == DoAcquire(seal, old(View()), PROGRAM_PAGE, slot, page, Stopped, late)
      ensures rc == OK ==> !fault && lease.Some? && inflight == lease
    {
      late := false;
      if slot !in freshMap || page < working[slot].consumed { Fail(); return REFUSED, None, late; }
      working := working[slot := working[slot].(consumed := page + 1)];
      var l;
      rc, l, late := HandOut(PROGRAM_PAGE, slot, page);
      lease := Some(l);
    }

    /** Grant one erase or program lease. The lease is written out before the closing deadline
        check, so a late grant still counts as handed out. */
    method Acquire(kind: nat, slot: nat, page: nat) returns (rc: Rc, lease: Option<Lease>, ghost op: Op)
      modifies this, flash
      ensures View() == Exec(seal, old(View()), op)
      ensures op == Op.Fault || op == Op.Denied
           || (op.Acquire? && op.kind == kind && op.slot == slot && op.page == page)
      ensures rc == OK ==> !fault && lease.Some? && inflight == lease
    {
      op, lease := Op.Fault, None;
      rc := Begin();
      if rc != OK { return; }
      op := Op.Acquire(kind, slot, page, Stopped, false);
      if slot >= MAP_BLOCKS || page >= 64 || !booted || !reconciled || inflight.Some?
         || current.snap.pendingKind != NO_LEASE || current.snap.state == READ_ONLY || slot in current.snap.retired {
        return REFUSED, None, op;
      }
      rc := Admitted();
      if rc != OK { return rc, None, if rc == REFUSED then Op.Denied else Op.Fault; }
      ghost var o, late := Stopped, false;
      if kind == ERASE_BLOCK {
        rc, lease, o, late := AcquireErase(slot, page);
      } else if kind == PROGRAM_PAGE {
        rc, lease, late := AcquireProgram(slot, page);
      } else {
        rc := ARGUMENT;
      }
      op := Op.Acquire(kind, slot, page, o, late);
    }

    method ResolveErase(l: Lease) returns (rc: Rc, ghost o: Outcome, ghost late: bool)
      requires !fault && inflight == Some(l) && l.slot < MAP_BLOCKS && l.kind == ERASE_BLOCK
      modifies this, flash
      ensures View() == DoResolve(seal, old(View()), l, o, late)
      ensures rc == OK ==> !fault && inflight.None?
    {
      late := false;
      candidate := ResolveCandidate(current.snap, l.slot);
      ghost var hashed;
      rc, o, hashed := Publish();
      if rc == OK {
        working := working[l.slot := current.snap.blocks[l.slot]];
        freshMap := freshMap + {l.slot};
        inflight := None;
        var inTime := Check();
        rc := if inTime then OK else FAULT;
        late := !inTime;
      }
    }

    /** Record that the leased operation verifiably completed. */
    method Resolve(l: Lease) returns (rc: Rc, ghost op: Op)
      modifies this, flash
      ensures View() == Exec(seal, old(View()), op)
      ensures op == Op.Fault || (op.Resolve? && op.lease == l)
      ensures rc == OK ==> !fault && inflight.None?
    {
      op := Op.Fault;
      rc := Begin();
      if rc != OK { return; }
      op := Op.Resolve(l, Stopped, false);
      if inflight != Some(l) || l.slot >= MAP_BLOCKS { Fail(); return REFUSED, op; }
      if l.kind == ERASE_BLOCK {
        ghost var o, late;
        rc, o, late := ResolveErase(l);
        op := Op.Resolve(l, o, late);
      } else {
        working := working[l.slot := working[l.slot].(valid := working[l.slot].valid + {l.page})];
        log := log.(resolved := log.resolved + {l.leaseId});
        inflight := None;
        var inTime := Check();
        rc := if inTime then OK else FAULT;
        op := Op.Resolve(l, Stopped, !inTime);
      }
    }

    /** Make the verified page history durable. */
    method HistorySync() returns (rc: Rc, ghost op: Op)
      modifies this, flash
      ensures View() == Exec(seal, old(View()), op) && (op == Op.Fault || op.HistorySync?)
      ensures rc == OK ==> !fault && current.snap.blocks == working
    {
      op := Op.Fault;
      rc := Begin();
      if rc != OK { return; }
      op := Op.HistorySync(Stopped);
      if !booted || !reconciled || inflight.Some? || current.snap.pendingKind != NO_LEASE
         || current.snap.state == READ_ONLY {
        return REFUSED, op;
      }
      candidate := HistoryCandidate(current.snap, working);
      ghost var o, hashed;
      rc, o, hashed := Publish();
      op := Op.HistorySync(o);
    }

    /** Retire the block whose leased operation failed. */
    method Retire(slot: nat, bitmap: set<nat>, l: Lease) returns (rc: Rc, ghost op: Op)
      modifies this, flash
      ensures View() == Exec(seal, old(View()), op)
      ensures op == Op.Fault || (op.Retire? && op.slot == slot && op.bitmap == bitmap && op.lease == l)
      ensures rc == OK ==> !fault && inflight.None?
    {
      op := Op.Fault;
      rc := Begin();
      if rc != OK { return; }
      op := Op.Retire(slot, bitmap, l, Stopped);
      if slot >= MAP_BLOCKS || bitmap != current.snap.retired + {slot} || inflight != Some(l) {
        Fail();
        return REFUSED, op;
      }
      candidate := RetireCandidate(current.snap, working, slot);
      ghost var o, hashed;
      rc, o, hashed := Publish();
      if rc == OK { freshMap, inflight := freshMap - {slot}, None; }
      op := Op.Retire(slot, bitmap, l, o);
    }

    // ----- Boot and provision -----------------------------------------------------------------------

    /** Read one bank front to back. */
    method ScanOne(k: BankIndex) returns (ok: bool, readable: bool, scan: Scan)
      requires !fault
      modifies this`fault, this`reconciled
      ensures ok ==> !fault && reconciled == old(reconciled)
                     && scan == ScanBank(seal, k, flash.cells.At(k), SLOTS)
                     && forall i: nat :: i < SLOTS ==> !Decode(seal, k, i, flash.cells.At(k)[i]).Contradiction?
      ensures !ok ==> fault
      ensures !ok && readable ==> Contradicted(seal, flash.cells)
    {
      var gap, broken, highest := false, false, 0;
      var first, last: Decoded := NotARecord, NotARecord;
      var slot := 0;
      while slot < SLOTS
        invariant slot <= SLOTS && !fault && reconciled == old(reconciled)
        invariant Scan(gap, broken, highest, first, last) == ScanBank(seal, k, flash.cells.At(k), slot)
        invariant forall i: nat :: i < slot ==> !Decode(seal, k, i, flash.cells.At(k)[i]).Contradiction?
      {
        var inTime := Check();
        if !inTime { return false, false, SCAN_START; }
        var answered, cell := flash.Read(k, slot);
        if !answered { Fail(); return false, false, SCAN_START; }
        var d := Decode(seal, k, slot, cell);
        if d.Contradiction? { Fail(); return false, true, SCAN_START; }
        if d.NotARecord? {
          gap := true;
        } else {
          if d.root.snap.epoch > highest { highest := d.root.snap.epoch; }
          if gap || (last.Record? && !Transition(last.root, d.root.snap)) { broken := true; }
          if !first.Record? { first := d; }
          last := d;
        }
        slot := slot + 1;
      }
      return true, true, Scan(gap, broken, highest, first, last);
    }

    /** Select the root, once. The answer is `BootScan` of the flash whenever every page could be read. */
    method Boot() returns (rc: Rc, readable: bool)
      requires !booted ==> freshMap == {} && inflight.None?
      modifies this
      ensures old(fault) ==> rc == FAULT && View() == old(View())
      ensures old(booted) && !old(fault) ==>
        (rc == REFUSED && View() == old(View())) || (rc == FAULT && View() == Faulted(old(View())))
      ensures rc == OK ==> !old(booted) && BootScan(seal, flash.cells) == Selected(current)
      ensures rc == OK ==> View() == DoReboot(seal, old(View()), true)
      ensures rc == NO_ROOT ==> BootScan(seal, flash.cells) == NoRoot && View() == old(View()) && !booted
      ensures rc == CONFLICT ==> BootScan(seal, flash.cells) == BootResult.Conflict && fault && !booted
      ensures readable <==> rc == OK || rc == NO_ROOT || rc == CONFLICT
      ensures !readable ==> booted == old(booted) && log == old(log)
      ensures !booted ==> freshMap == {} && inflight.None?
    {
      rc := Begin();
      if rc != OK { return rc, false; }
      if booted { return REFUSED, false; }
      rc := Admitted();
      if rc != OK { return rc, false; }
      var ok0, seen0, s0 := ScanOne(0);
      if !ok0 { return if seen0 then CONFLICT else FAULT, seen0; }
      var ok1, seen1, s1 := ScanOne(1);
      if !ok1 { return if seen1 then CONFLICT else FAULT, seen1; }
      assert !Contradicted(seal, flash.cells);
      rc := Choose(s0, s1);
      readable := true;
    }

    /** Take over the newer bank's last record unless the banks contradict each other. */
    method Choose(s0: Scan, s1: Scan) returns (rc: Rc)
      requires !fault && !booted && freshMap == {} && inflight.None?
      modifies this
      ensures rc == OK || rc == NO_ROOT || rc == CONFLICT
      ensures rc == OK ==>
                && Select(s0, s1) == Selected(current)
                && View() == World(flash.cells, Started(current), old(log).(acked := current, flight := None))
      ensures rc == NO_ROOT ==> Select(s0, s1) == NoRoot && View() == old(View())
      ensures rc == CONFLICT ==> Select(s0, s1) == BootResult.Conflict && fault && !booted
      ensures !booted ==> freshMap == {} && inflight.None?
    {
      var pick1 := LastEpoch(s1) > LastEpoch(s0);
      var mine, other := if pick1 then s1 else s0, if pick1 then s0 else s1;
      if !mine.last.Record? || !mine.first.Record? { return NO_ROOT; }
      if mine.broken || mine.first.root.snap.slot != 0
         || (other.highest >= mine.first.root.snap.epoch && other.highest != 0)
         || (other.last.Record? && other.last.root.snap.epoch == mine.first.root.snap.previousEpoch
             && !Transition(other.last.root, mine.first.root.snap)) {
        Fail();
        return CONFLICT;
      }
      current, working := mine.last.root, mine.last.root.snap.blocks;
      booted, tailFresh, nextSlot, freshMap, reconciled := true, false, 0, {}, false;
      log := log.(acked := current, flight := None);
      return OK;
    }

    /** Erase both banks, the second one first; nothing but the fault can have changed in memory. */
    method EraseBoth() returns (rc: Rc)
      requires !fault
      modifies this`fault, this`reconciled, flash
      ensures rc == OK ==> !fault && reconciled == old(reconciled)
      ensures rc == OK ==> flash.cells == Flash(BlankBank(), BlankBank())
      ensures rc != OK ==> fault
    {
      ghost var began, kept, torn;
      rc, began, kept, torn := EraseFresh(1);
      if rc == OK { rc, began, kept, torn := EraseFresh(0); }
      if rc != OK { Fail(); }
    }

    /** Publish the first record into blank flash. */
    method PublishFirst() returns (rc: Rc)
      requires !fault && !booted && freshMap == {} && inflight.None?
      requires flash.cells == Flash(BlankBank(), BlankBank())
      modifies this, flash
      ensures rc == OK ==> booted && View() == Provisioned(seal)
      ensures rc != OK ==> fault && !booted && freshMap == {} && inflight.None?
    {
      ghost var o;
      candidate := Genesis();
      var digestOk: bool := *;
      if !digestOk { Fail(); return CONFLICT; }
      rc, o := Commit(candidate);
      if rc == OK {
        booted, reconciled, working := true, true, current.snap.blocks;
        log := Log(current, None, [], {});
      }
    }

    /** Format both banks and publish the first record; refused once there is a root. */
    method Provision() returns (rc: Rc)
      requires !booted ==> freshMap == {} && inflight.None?
      modifies this, flash
      ensures old(fault) ==> rc == FAULT && View() == old(View())
      ensures !old(fault) && (old(booted) || old(current).snap.epoch != 0) ==>
        (rc == REFUSED && View() == old(View())) || (rc == FAULT && View() == Faulted(old(View())))
      ensures rc == OK ==> View() == Provisioned(seal)
      ensures !old(booted) && old(current).snap.epoch == 0 && rc != OK ==> fault && !booted
      ensures !booted ==> freshMap == {} && inflight.None?
    {
      hide BlankBank, Provisioned;
      rc := Begin();
      if rc != OK { return; }
      if booted || current.snap.epoch != 0 { return REFUSED; }
      rc := EraseBoth();
      if rc == OK { rc := PublishFirst(); }
    }
  }
}
