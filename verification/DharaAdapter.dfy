/**
 The flash-translation adapter in reserved-range mode. It keeps its own record of sequence, high
 water, range bases and consumed pages and checks every lease against it without trusting the
 journal. Here the two run together: the check never rejects what the journal granted, and the
 journal never refuses what the adapter asks on the strength of its own page report.
 */
module DharaAdapter {
  import opened JournalRules
  import opened JournalFlash
  import opened JournalWorld
  import JournalMachine

  const MIN_GOOD_BLOCKS: nat := 19

  type Bases = s: seq<nat> | |s| == MAP_BLOCKS witness seq(MAP_BLOCKS, _ => 0)
  type Spent = s: seq<set<nat>> | |s| == MAP_BLOCKS witness seq(MAP_BLOCKS, _ => {})

  /** The adapter's independent bookkeeping. */
  datatype Books = Books(sequence: nat, highWater: nat, base: Bases, consumed: Spent, retired: set<nat>)

  predicate Accepts(a: Books, kind: nat, slot: nat, page: nat, l: Lease)
    requires slot < MAP_BLOCKS
  {
    && l.kind == kind && l.slot == slot && l.page == page && l.leaseId != 0
    && 0 < l.rangeBase <= U64_MAX - 64 && l.sequence >= a.sequence
    && (if kind == ERASE_BLOCK then
          l.rangeBase == l.leaseId && l.rangeBase > a.highWater && l.sequence > a.sequence
        else
          l.rangeBase == a.base[slot] && l.leaseId == a.base[slot] + 1 + page && page !in a.consumed[slot])
  }

  function Took(a: Books, kind: nat, slot: nat, page: nat, l: Lease): Books
    requires slot < MAP_BLOCKS
  {
    a.(sequence := l.sequence,
       highWater := if l.rangeBase + 64 > a.highWater then l.rangeBase + 64 else a.highWater,
       consumed := if kind == ERASE_BLOCK then a.consumed else a.consumed[slot := a.consumed[slot] + {page}])
  }

  function Opened(a: Books, l: Lease): Books
    requires l.slot < MAP_BLOCKS
  {
    a.(base := a.base[l.slot := l.rangeBase], consumed := a.consumed[l.slot := {}])
  }

  /** The books agree with the journal: behind it in time, equal on every writable block. */
  ghost predicate Matches(a: Books, r: Ram) {
    && a.sequence <= r.current.snap.epoch && a.highWater <= r.current.snap.highWater
    && a.retired == r.current.snap.retired
    && forall b :: b in r.freshMap ==>
         b < MAP_BLOCKS && a.base[b] == r.working[b].base
         && forall p :: p in a.consumed[b] ==> p < r.working[b].consumed
  }

  /** Whatever the journal grants passes the adapter's own check, and the books still agree. */
  lemma GrantsPassTheAdapter(seal: Seal, w: World, a: Books, kind: nat, slot: nat, page: nat, o: Outcome, late: bool)
    requires Inv(seal, w) && !w.ram.fault && NonZero(seal) && Matches(a, w.ram)
    requires kind == ERASE_BLOCK || kind == PROGRAM_PAGE
    requires slot < MAP_BLOCKS && !DoAcquire(seal, w, kind, slot, page, o, late).ram.fault
    requires !AcquireRefused(w, slot, page)
    ensures var v := DoAcquire(seal, w, kind, slot, page, o, late);
            && v.ram.inflight.Some?
            && Accepts(a, kind, slot, page, v.ram.inflight.value)
            && Matches(Took(a, kind, slot, page, v.ram.inflight.value), v.ram)
            && v.ram.freshMap == w.ram.freshMap - (if kind == ERASE_BLOCK then {slot} else {})
  {
    if kind == ERASE_BLOCK {
      var c := EraseCandidate(w.ram.current.snap, slot);
      if w.ram.current.snap.epoch < I64_MAX {
        ErasePublishes(w.ram.current, w.ram.tailFresh, w.ram.nextSlot, slot);
      }
      LandedPublish(seal, w, c, o);
      EraseGrantPasses(seal, w, a, slot, page, Publish(seal, w, c, o), late);
    } else {
      RangeBelowWater(w.ram, slot);
      assert BlockSyntax(w.ram.current.snap, slot);
      assert BlockRefines(w.ram.working[slot], w.ram.current.snap.blocks[slot]);
    }
  }

  lemma EraseGrantPasses(seal: Seal, w: World, a: Books, slot: nat, page: nat, v: World, late: bool)
    requires slot < MAP_BLOCKS && Matches(a, w.ram) && w.ram.current.snap.highWater <= U64_MAX - 65
    requires FreshOk(w.ram, w.log.issued)
    requires Landed(seal, w, EraseCandidate(w.ram.current.snap, slot), v)
    ensures var u := AfterErase(v, slot, page, late);
            && u.ram.inflight.Some?
            && Accepts(a, ERASE_BLOCK, slot, page, u.ram.inflight.value)
            && Matches(Took(a, ERASE_BLOCK, slot, page, u.ram.inflight.value), u.ram)
            && u.ram.freshMap == w.ram.freshMap - {slot}
  {
  }

  /** A page reported UNUSED can be leased: the journal does not fault the request. */
  lemma UnusedCanBeLeased(seal: Seal, w: World, slot: nat, page: nat, o: Outcome)
    requires Inv(seal, w) && !w.ram.fault && slot < MAP_BLOCKS && page < 64
    requires InfoOf(w, slot, page).Unused? && !AcquireRefused(w, slot, page)
    ensures !DoAcquire(seal, w, PROGRAM_PAGE, slot, page, o, false).ram.fault
  {
  }

  lemma ResolveKeepsBooks(seal: Seal, w: World, a: Books, l: Lease, o: Outcome, late: bool)
    requires Inv(seal, w) && !w.ram.fault && NonZero(seal) && Matches(a, w.ram) && w.ram.inflight == Some(l)
    requires !DoResolve(seal, w, l, o, late).ram.fault
    ensures var v := DoResolve(seal, w, l, o, late);
            && v.ram.inflight.None? && Matches(if l.kind == ERASE_BLOCK then Opened(a, l) else a, v.ram)
            && v.ram.freshMap == w.ram.freshMap + (if l.kind == ERASE_BLOCK then {l.slot} else {})
  {
    if l.kind == ERASE_BLOCK {
      var c := ResolveCandidate(w.ram.current.snap, l.slot);
      if w.ram.current.snap.epoch < I64_MAX {
        ResolvePublishes(w.ram.current, w.ram.tailFresh, w.ram.nextSlot, l.slot);
      }
      LandedPublish(seal, w, c, o);
      ResolveOpens(seal, w, a, l, Publish(seal, w, c, o), late);
    }
  }

  lemma ResolveOpens(seal: Seal, w: World, a: Books, l: Lease, v: World, late: bool)
    requires Matches(a, w.ram) && FreshOk(w.ram, w.log.issued) && InflightOk(w.ram, w.log)
    requires w.ram.inflight == Some(l) && l.kind == ERASE_BLOCK
    requires Landed(seal, w, ResolveCandidate(w.ram.current.snap, l.slot), v)
      && Refines(w.ram.working, w.ram.current.snap.blocks)
    ensures Matches(Opened(a, l), AfterResolve(v, l, late).ram)
    ensures AfterResolve(v, l, late).ram.freshMap == w.ram.freshMap + {l.slot}
  {
    assert BlockRefines(w.ram.working[l.slot], w.ram.current.snap.blocks[l.slot]);
  }

  lemma RetireKeepsBooks(seal: Seal, w: World, a: Books, slot: nat, l: Lease, o: Outcome)
    requires Inv(seal, w) && !w.ram.fault && NonZero(seal) && Matches(a, w.ram) && w.ram.inflight == Some(l)
    requires slot < MAP_BLOCKS && !DoRetire(seal, w, slot, a.retired + {slot}, l, o).ram.fault
    ensures var v := DoRetire(seal, w, slot, a.retired + {slot}, l, o);
            && v.ram.inflight.None? && Matches(a.(retired := a.retired + {slot}), v.ram)
            && v.ram.freshMap == w.ram.freshMap - {slot}
  {
    var c := RetireCandidate(w.ram.current.snap, w.ram.working, slot);
    if w.ram.current.snap.epoch < I64_MAX {
      RetirePublishes(w.ram.current, w.ram.tailFresh, w.ram.nextSlot, w.ram.working, slot);
    }
    LandedPublish(seal, w, c, o);
  }

  /** Making the working blocks durable changes nothing the books speak of. */
  lemma HistoryKeepsBooks(seal: Seal, w: World, a: Books, o: Outcome)
    requires Inv(seal, w) && !w.ram.fault && NonZero(seal) && Matches(a, w.ram) && w.ram.inflight.None?
    requires !DoHistorySync(seal, w, o).ram.fault
    ensures var v := DoHistorySync(seal, w, o);
            v.ram.inflight.None? && Matches(a, v.ram) && v.ram.freshMap == w.ram.freshMap
              && v.ram.working == w.ram.working
  {
    if w.ram.booted && w.ram.reconciled && w.ram.current.snap.pendingKind == NO_LEASE
      && w.ram.current.snap.state != READ_ONLY {
      var c := HistoryCandidate(w.ram.current.snap, w.ram.working);
      if w.ram.current.snap.epoch < I64_MAX {
        HistoryPublishes(w.ram.current, w.ram.tailFresh, w.ram.nextSlot, w.ram.working);
      }
      LandedPublish(seal, w, c, o);
    }
  }

  datatype Io = Done | Media | Error

  /** Why a call failed: the journal or a port said so, the adapter's own deadline passed, capacity ran out,
      the page was already spoken for, the page could not be built, or the two sides disagreed. */
  datatype Why = Nothing | Port | Deadline | Capacity | History | Hash | Disagreement

  class OwnedDhara {
    const journal: JournalMachine.Journal
    var fault: Why
    var writable: bool
    var mediaPending: bool
    var books: Books
    var pending: Option<Lease>

    /** Between calls: the journal is sound and, while both are up, the books agree with it. */
    ghost predicate Agree()
      reads this, journal, journal.flash
    {
      && NonZero(journal.seal) && Inv(journal.seal, journal.View())
      && (fault.Nothing? ==> !mediaPending && pending.None?)
      && (fault.Nothing? && !journal.fault ==> Matches(books, journal.View().ram) && journal.inflight.None?)
    }

    /** During a leased operation. */
    ghost predicate Holding(l: Lease)
      reads this, journal, journal.flash
    {
      && NonZero(journal.seal) && Inv(journal.seal, journal.View())
      && fault.Nothing? && !mediaPending && pending == Some(l) && l.slot < MAP_BLOCKS
      && (!journal.fault ==> Matches(books, journal.View().ram) && journal.inflight == Some(l))
    }

    /** Built on a journal that has just booted or provisioned: no block is writable by both. */
    constructor (journal: JournalMachine.Journal)
      requires NonZero(journal.seal) && Inv(journal.seal, journal.View()) && !journal.fault
      requires journal.freshMap == {} && journal.inflight.None?
      ensures this.journal == journal && Agree() && fault.Nothing? && !writable
    {
      this.journal := journal;
      fault, writable, mediaPending, pending := Nothing, false, false, None;
      books := Books(0, 0, seq(MAP_BLOCKS, _ => 0), seq(MAP_BLOCKS, _ => {}), journal.current.snap.retired);
    }

    method Fail(why: Why)
      requires !why.Nothing?
      modifies this`fault, this`writable
      ensures fault == (if old(fault).Nothing? then why else old(fault)) && !writable
    {
      if fault.Nothing? { fault := why; }
      writable := false;
    }

    /** The adapter's own look at the clock, apart from the journal's. */
    method TimeOk() returns (ok: bool)
      requires fault.Nothing?
      modifies this`fault, this`writable
      ensures ok ==> fault.Nothing? && writable == old(writable)
      ensures !ok ==> fault.Deadline? && !writable
    {
      var late: bool := *;
      if late { Fail(Deadline); }
      ok := !late;
    }

    /** Write authority from the journal's capability, which must name the given state. A capability behind the
        books never comes from the journal: it is refused only for its state, its capacity or the clock. */
    method Capability(state: nat) returns (ok: bool, ghost behind: bool)
      requires Agree() && fault.Nothing?
      modifies this`fault, this`writable, this`books
      ensures Agree() && !behind && (fault.Nothing? || fault.Deadline?)
      ensures ok ==> Granted(state) && !journal.fault
      ensures !ok ==> books == old(books) && (writable ==> old(writable))
    {
      ok, behind := false, false;
      if journal.fault || !journal.booted || !journal.reconciled || journal.inflight.Some?
         || journal.current.snap.pendingKind != NO_LEASE || journal.current.snap.state != state || state == READ_ONLY {
        return;
      }
      var c := journal.current.snap;
      if c.epoch < books.sequence || c.highWater < books.highWater || !(books.retired <= c.retired) {
        behind := true;
        return;
      }
      if MAP_BLOCKS < |c.retired| + MIN_GOOD_BLOCKS { return; }
      var inTime := TimeOk();
      if !inTime { return; }
      var current: bool := *;
      if !current { return; }
      inTime := TimeOk();
      if !inTime { return; }
      books := books.(sequence := c.epoch, highWater := c.highWater, retired := c.retired);
      writable := true;
      ok := true;
    }

    /** Write authority for exactly what the journal's current root says. */
    ghost predicate Granted(state: nat)
      reads this, journal
    {
      var c := journal.current.snap;
      && fault.Nothing? && writable && c.state == state
      && books.sequence == c.epoch && books.highWater == c.highWater && books.retired == c.retired
      && |c.retired| + MIN_GOOD_BLOCKS <= MAP_BLOCKS
    }

    /** owned_dhara_grant. A refused replacement never keeps the old authority. */
    method Grant() returns (ok: bool)
      requires Agree()
      modifies this`fault, this`writable, this`books
      ensures Agree() && (ok ==> Granted(ACTIVE))
      ensures !ok && old(fault).Nothing? ==> !writable && !fault.Disagreement? && books == old(books)
    {
      hide Inv, Matches, NonZero;
      if !fault.Nothing? { return false; }
      ok := TimeOk();
      if !ok { return; }
      writable := false;
      var ready: bool := *;
      if !ready { return false; }
      ghost var behind: bool;
      ok, behind := Capability(ACTIVE);
    }

    /** What the adapter asks of itself before it asks the journal. */
    method MayAcquire(slot: nat) returns (ok: bool)
      requires fault.Nothing? && slot < MAP_BLOCKS
      modifies this`fault, this`writable
      ensures ok ==> fault.Nothing? && writable && slot !in books.retired
      ensures ok ==> books.sequence != U64_MAX && books.highWater != U64_MAX
      ensures !ok ==> !fault.Nothing? && !fault.Disagreement?
    {
      if !writable || mediaPending { Fail(Port); return false; }
      if MAP_BLOCKS < |books.retired| + MIN_GOOD_BLOCKS { Fail(Capacity); return false; }
      if slot in books.retired { Fail(Port); return false; }
      if books.sequence == U64_MAX || books.highWater == U64_MAX { Fail(Port); return false; }
      ok := TimeOk();
    }

    /** The journal's answer: a lease only from its step of the model. */
    method Ask(kind: nat, slot: nat, page: nat) returns (lease: Option<Lease>, ghost op: Op)
      requires Agree() && fault.Nothing? && slot < MAP_BLOCKS && page < 64
      requires kind == ERASE_BLOCK || kind == PROGRAM_PAGE
      modifies journal, journal.flash
      ensures NonZero(journal.seal) && Inv(journal.seal, journal.View())
      ensures lease.Some? ==>
        && !old(journal.fault) && !journal.fault && journal.inflight == lease
        && op.Acquire? && !AcquireRefused(old(journal.View()), slot, page)
        && journal.View() == DoAcquire(journal.seal, old(journal.View()), kind, slot, page, op.o, op.late)
    {
      ghost var w := journal.View();
      var rc;
      rc, lease, op := journal.Acquire(kind, slot, page);
      ExecKeeps(journal.seal, w, op);
      if rc != JournalMachine.OK { lease := None; }
    }

    /** Ask for a lease, check the answer independently and take it into the books. */
    method TakeLease(kind: nat, slot: nat, page: nat) returns (ok: bool)
      requires Agree() && fault.Nothing? && slot < MAP_BLOCKS && page < 64
      requires kind == ERASE_BLOCK || kind == PROGRAM_PAGE
      modifies this, journal, journal.flash
      ensures ok ==> pending.Some? && Holding(pending.value)
                     && pending.value.kind == kind && pending.value.slot == slot && pending.value.page == page
      ensures ok ==> journal.freshMap == old(journal.freshMap) - (if kind == ERASE_BLOCK then {slot} else {})
      ensures ok ==> books.retired == old(books.retired)
      ensures !ok ==> Agree() && !fault.Nothing? && !fault.Disagreement?
    {
      hide Inv, Matches, NonZero, DoAcquire, AcquireRefused;
      ghost var w := journal.View();
      ghost var op;
      var lease;
      lease, op := Ask(kind, slot, page);
      if lease.None? { Fail(Port); return false; }
      var l := lease.value;
      ok := Accepts(books, kind, slot, page, l);
      if ok {
        books, pending := Took(books, kind, slot, page, l), lease;
      } else {
        Fail(Disagreement);
      }
      GrantsPassTheAdapter(journal.seal, w, old(books), kind, slot, page, op.o, op.late);
    }

    /** Acquire one lease. The books take it in before the clock is looked at again, so a late one counts as
        taken; it never fails because the two sides disagree. */
    method Acquire(kind: nat, slot: nat, page: nat) returns (ok: bool)
      requires Agree() && fault.Nothing? && slot < MAP_BLOCKS && page < 64
      requires kind == ERASE_BLOCK || kind == PROGRAM_PAGE
      modifies this, journal, journal.flash
      ensures ok ==> pending.Some? && Holding(pending.value)
                     && pending.value.kind == kind && pending.value.slot == slot && pending.value.page == page
      ensures ok ==> journal.freshMap == old(journal.freshMap) - (if kind == ERASE_BLOCK then {slot} else {})
      ensures ok ==> books.retired == old(books.retired)
      ensures !ok ==> Agree() && !fault.Nothing? && !fault.Disagreement?
    {
      hide Inv, Matches, NonZero, Accepts, Took;
      ok := MayAcquire(slot);
      if !ok { return; }
      ok := TakeLease(kind, slot, page);
      if ok { ok := TimeOk(); }
    }

    /** Have the journal retire the block of the lease in flight, which the books already exclude. */
    method RetireBlock(l: Lease, ghost was: Books) returns (ok: bool)
      requires NonZero(journal.seal) && Inv(journal.seal, journal.View()) && l.slot < MAP_BLOCKS && fault.Nothing?
      requires books == was.(retired := was.retired + {l.slot})
      requires !journal.fault ==> Matches(was, journal.View().ram) && journal.inflight == Some(l)
      modifies this`fault, this`writable, journal, journal.flash
      ensures NonZero(journal.seal) && Inv(journal.seal, journal.View()) && (if ok then fault.Nothing? else fault.Port?)
      ensures ok ==> !journal.fault && journal.freshMap == old(journal.freshMap) - {l.slot}
      ensures ok ==> Matches(books, journal.View().ram) && journal.inflight.None?
    {
      ghost var w := journal.View();
      ghost var op;
      var rc;
      rc, op := journal.Retire(l.slot, books.retired, l);
      ExecKeeps(journal.seal, w, op);
      ok := rc == JournalMachine.OK;
      if !ok { Fail(Port); return; }
      RetireKeepsBooks(journal.seal, w, was, l.slot, l, op.o);
    }

    /** A diagnosed media failure: persist the exclusion before reporting a bad block. */
    method MarkBad(l: Lease)
      requires Holding(l)
      modifies this, journal, journal.flash
      ensures Agree() && !fault.Disagreement?
      ensures fault.Nothing? ==>
        books.retired == old(books.retired) + {l.slot} && journal.freshMap == old(journal.freshMap) - {l.slot}
    {
      hide Inv, Matches, NonZero;
      mediaPending := true;
      books := books.(retired := books.retired + {l.slot});
      var ok := TimeOk();
      if !ok { return; }
      ok := RetireBlock(l, old(books));
      if !ok { return; }
      ok := TimeOk();
      if !ok { return; }
      mediaPending, pending := false, None;
      if MAP_BLOCKS < |books.retired| + MIN_GOOD_BLOCKS { Fail(Capacity); }
    }

    /** Have the journal resolve the lease in flight. */
    method ResolveLease(l: Lease) returns (ok: bool)
      requires Holding(l)
      modifies this`fault, this`writable, journal, journal.flash
      ensures NonZero(journal.seal) && Inv(journal.seal, journal.View()) && (if ok then fault.Nothing? else fault.Port?)
      ensures ok ==> !journal.fault && journal.inflight.None?
      ensures ok ==> Matches(if l.kind == ERASE_BLOCK then Opened(books, l) else books, journal.View().ram)
      ensures ok ==> journal.freshMap == old(journal.freshMap) + (if l.kind == ERASE_BLOCK then {l.slot} else {})
      ensures ok && l.kind == PROGRAM_PAGE ==> l.leaseId in journal.log.resolved
    {
      ghost var w := journal.View();
      ghost var op;
      var rc;
      rc, op := journal.Resolve(l);
      ExecKeeps(journal.seal, w, op);
      ok := rc == JournalMachine.OK;
      if !ok { Fail(Port); return; }
      ResolveKeepsBooks(journal.seal, w, books, l, op.o, op.late);
    }

    method Settle(l: Lease) returns (ok: bool)
      requires Holding(l)
      modifies this, journal, journal.flash
      ensures Agree() && !fault.Disagreement? && (ok <==> fault.Nothing?) && books.retired == old(books.retired)
      ensures ok ==> journal.freshMap == old(journal.freshMap) + (if l.kind == ERASE_BLOCK then {l.slot} else {})
      ensures ok && l.kind == PROGRAM_PAGE ==> l.leaseId in journal.log.resolved
    {
      hide Inv, Matches, NonZero;
      ok := ResolveLease(l);
      if !ok { return; }
      ok := TimeOk();
      if !ok { return; }
      if l.kind == ERASE_BLOCK { books := Opened(books, l); }
      pending := None;
    }

    /** A block has just been retired, and nothing else has. */
    ghost predicate Excluded(slot: nat, was: set<nat>, free: set<nat>)
      reads this, journal
    {
      books.retired == was + {slot} && journal.freshMap == free - {slot}
    }

    /** Close a leased operation: resolve it, or retire its block on a diagnosed media failure. */
    method MutationResult(io: Io) returns (ok: bool)
      requires pending.Some? && Holding(pending.value)
      modifies this, journal, journal.flash
      ensures Agree() && !fault.Disagreement? && (ok <==> fault.Nothing? && io.Done?)
      ensures io.Error? ==> fault.Port?
      ensures ok ==> books.retired == old(books.retired) && journal.freshMap == old(journal.freshMap)
                     + (if old(pending.value).kind == ERASE_BLOCK then {old(pending.value).slot} else {})
      ensures !ok && fault.Nothing? ==>
        io.Media? && Excluded(old(pending.value).slot, old(books.retired), old(journal.freshMap))
      ensures ok && old(pending.value).kind == PROGRAM_PAGE ==> old(pending.value).leaseId in journal.log.resolved
    {
      match io
      case Error => Fail(Port); return false;
      case Media => MarkBad(pending.value); return false;
      case Done =>
        ok := TimeOk();
        if ok { ok := Settle(pending.value); }
    }

    /** A leased operation: acquire, let the chip do it, and close it. */
    method Operate(kind: nat, slot: nat, page: nat) returns (ok: bool)
      requires Agree() && fault.Nothing? && slot < MAP_BLOCKS && page < 64
        && (kind == ERASE_BLOCK || kind == PROGRAM_PAGE)
      modifies this, journal, journal.flash
      ensures Agree() && !fault.Disagreement? && (ok ==> fault.Nothing? && books.retired == old(books.retired))
      ensures ok ==> journal.freshMap == old(journal.freshMap) + (if kind == ERASE_BLOCK then {slot} else {})
      ensures !ok && fault.Nothing? ==> Excluded(slot, old(books.retired), old(journal.freshMap))
    {
      hide Inv, Matches, NonZero, Accepts, Took;
      ok := Acquire(kind, slot, page);
      if ok {
        var built: bool := *;
        if kind == PROGRAM_PAGE && !built { Fail(Hash); return false; }
        ok := TimeOk();
        if !ok { return; }
        var done: bool := *;
        var media: bool := *;
        var io := if done then Done else if media then Media else Error;
        ghost var l := pending.value;
        ok := MutationResult(io);
        assert l.slot == slot;
      }
    }

    method EraseBlock(slot: nat) returns (ok: bool)
      requires Agree() && slot < MAP_BLOCKS
      modifies this, journal, journal.flash
      ensures Agree() && (old(fault).Nothing? ==> !fault.Disagreement?)
      ensures ok ==>
        && fault.Nothing? && books.retired == old(books.retired)
        && journal.freshMap == old(journal.freshMap) + {slot}
      ensures !ok && fault.Nothing? ==> Excluded(slot, old(books.retired), old(journal.freshMap))
    {
      hide Inv, Matches;
      if !fault.Nothing? { return false; }
      ok := TimeOk();
      if !ok { return; }
      ok := Operate(ERASE_BLOCK, slot, 0);
    }

    /** Program one page, only if the journal reports it UNUSED. */
    method ProgramPage(slot: nat, page: nat) returns (ok: bool)
      requires Agree() && slot < MAP_BLOCKS && page < 64
      modifies this, journal, journal.flash
      ensures Agree() && (old(fault).Nothing? ==> !fault.Disagreement?)
      ensures ok ==> fault.Nothing? && books.retired == old(books.retired) && journal.freshMap == old(journal.freshMap)
      ensures !ok && fault.Nothing? ==> Excluded(slot, old(books.retired), old(journal.freshMap))
      ensures ok ==> old(InfoOf(journal.View(), slot, page)).Unused?
    {
      hide Inv, Matches;
      if !fault.Nothing? { return false; }
      ok := TimeOk();
      if !ok { return; }
      if journal.fault || !journal.booted { Fail(Port); return false; }
      var x := journal.working[slot];
      var unused := page !in x.valid && slot in journal.freshMap
                    && slot !in journal.current.snap.retired && page >= x.consumed;
      if !unused { Fail(History); return false; }
      ok := TimeOk();
      if !ok { return; }
      ok := Operate(PROGRAM_PAGE, slot, page);
    }

    // ----- The calls from above -----------------------------------------------------------------------------

    /** owned_dhara_format: every block that is not retired is erased under the authority of a provisioning root.
        When it succeeds each block is retired or writable from its first page on. */
    method Format() returns (ok: bool)
      requires Agree()
      modifies this, journal, journal.flash
      ensures Agree() && (old(fault).Nothing? ==> !fault.Disagreement?)
      ensures ok ==> fault.Nothing? && forall b: nat :: b < MAP_BLOCKS ==> b in books.retired || b in journal.freshMap
    {
      hide Inv, Matches, NonZero;
      if !fault.Nothing? { return false; }
      ok := TimeOk();
      if !ok { return; }
      var ready: bool := *;
      if ready || writable || books.sequence != 0 { return false; }
      ghost var behind: bool;
      ok, behind := Capability(PROVISIONING);
      if !ok { return; }
      for b := 0 to MAP_BLOCKS
        invariant Agree() && fault.Nothing?
        invariant forall i: nat :: i < b ==> i in books.retired || i in journal.freshMap
      {
        if b !in books.retired {
          ok := EraseBlock(b);
          if !ok && !fault.Nothing? { return; }
        }
      }
      ok := TimeOk();
    }

    /** The journal makes its working blocks durable. */
    method HistoryStep() returns (ok: bool)
      requires Agree() && fault.Nothing?
      modifies this`fault, this`writable, journal, journal.flash
      ensures Agree() && (if ok then fault.Nothing? else fault.Port?)
      ensures ok ==> !journal.fault && journal.current.snap.blocks == journal.working
      ensures ok && !old(journal.fault) ==>
        journal.working == old(journal.working) && journal.freshMap == old(journal.freshMap)
    {
      ghost var w := journal.View();
      ghost var op;
      var rc;
      rc, op := journal.HistorySync();
      ExecKeeps(journal.seal, w, op);
      ok := rc == JournalMachine.OK;
      if !ok { Fail(Port); return; }
      HistoryKeepsBooks(journal.seal, w, books, op.o);
    }

    /** owned_dhara_sync: the translation layer erases and programs what it likes, then the history is made
        durable. Success means that every page verified so far stands in the current root. */
    method Sync() returns (ok: bool)
      requires Agree()
      modifies this, journal, journal.flash
      ensures Agree() && (old(fault).Nothing? ==> !fault.Disagreement?)
      ensures ok ==> fault.Nothing? && !journal.fault && journal.current.snap.blocks == journal.working
    {
      hide Inv, Matches, NonZero;
      if !fault.Nothing? || !writable { return false; }
      ok := TimeOk();
      if !ok { return; }
      ok := Library();
      if !ok { return; }
      ok := TimeOk();
      if !ok { return; }
      ok := HistoryStep();
      if !ok { return; }
      ok := TimeOk();
    }

    /** Any number of calls of the translation library, which stops at the first that fails. */
    method Library() returns (ok: bool)
      requires Agree() && fault.Nothing?
      modifies this, journal, journal.flash
      ensures Agree() && !fault.Disagreement? && (ok ==> fault.Nothing?)
    {
      hide Inv, Matches, NonZero;
      var calls: nat := *;
      ok := true;
      while calls > 0
        invariant Agree() && fault.Nothing?
      {
        var erase: bool, b: nat, p: nat := *, *, *;
        if erase {
          ok := EraseBlock(b % MAP_BLOCKS);
        } else {
          ok := ProgramPage(b % MAP_BLOCKS, p % 64);
        }
        if !fault.Nothing? { return false; }
        calls := calls - 1;
      }
    }
  }
}
