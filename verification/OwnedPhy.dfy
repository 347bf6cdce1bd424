/**
 The closed NAND service: every call locks, asks the authority, issues its transfers, restores the
 resting registers by read-back and unlocks. Chip, authority and clock answer anything.
 */
module OwnedPhy {
  type Page = int
  /** The raw page with every byte FF. */
  const ERASED: Page := -1

  datatype Access = ToRead | ToProgram | ToErase

  datatype Result = Ok(media: bool) | Argument | Fault | Busy | Denied

  datatype Command =
    | ReadId | GetStatus | GetA0 | GetB0 | SetA0(value: bv8) | SetB0(value: bv8)
    | WriteEnable | WriteDisable | LoadRow(row: nat) | Fetch(row: nat, raw: bool) | LoadPage(page: Page)
    | Execute(row: nat) | Erase(row: nat)

  /** What happened: the authority granted an access, or a transfer was issued and gave this. */
  datatype Mark = Granted(access: Access, row: nat) | Sent(c: Command, value: bv8, page: Page)

  predicate IsMutation(c: Command) { c.Execute? || c.Erase? }

  function AccessOf(c: Command): Access { if c.Erase? then ToErase else ToProgram }

  /** Transfers that start an array operation. */
  function Mutations(log: seq<Mark>): nat {
    if log == [] then 0
    else Mutations(log[..|log| - 1]) + (if log[|log| - 1].Sent? && IsMutation(log[|log| - 1].c) then 1 else 0)
  }

  /** Every array operation came armed: see `Armed`. */
  predicate Disciplined(log: seq<Mark>) {
    log == [] || (Disciplined(log[..|log| - 1]) && Due(log[..|log| - 1], log[|log| - 1]))
  }

  predicate Due(before: seq<Mark>, m: Mark) { m.Sent? && IsMutation(m.c) ==> Armed(before, m.c) }

  predicate Is(m: Mark, c: Command) { m.Sent? && m.c == c }

  /** Right before an array operation: the array was unlocked and read back so; then a grant for exactly
      this operation, the write latch set and seen set with the chip ready, for a program the page loaded,
      and the grant once more. */
  predicate Armed(before: seq<Mark>, c: Command)
    requires IsMutation(c)
  {
    var k := if c.Execute? then 5 else 4;
    && |before| >= k + 3
    && before[|before| - 1] == Granted(AccessOf(c), c.row)
    && (c.Execute? ==> before[|before| - 2].Sent? && before[|before| - 2].c.LoadPage?)
    && var i := |before| - k;
       && before[i] == Granted(AccessOf(c), c.row)
       && Is(before[i + 1], WriteEnable) && Is(before[i + 2], GetStatus) && before[i + 2].value & 0x83 == 2
       && before[i - 3].Sent? && before[i - 3].c.SetA0? && Is(before[i - 2], GetA0)
       && before[i - 2].value == before[i - 3].c.value && (before[i - 2].value == 0 || before[i - 2].value == 0x48)
  }

  /** The page a program was loaded with. */
  predicate Loaded(before: seq<Mark>, c: Command, main: Page) {
    c.Execute? ==> |before| >= 2 && Is(before[|before| - 2], LoadPage(main))
  }

  lemma {:induction false} DisciplinedAt(log: seq<Mark>, k: nat)
    requires Disciplined(log) && k < |log| && log[k].Sent? && IsMutation(log[k].c)
    ensures Armed(log[..k], log[k].c)
    decreases |log|
  {
    hide Armed;
    if k < |log| - 1 {
      DisciplinedAt(log[..|log| - 1], k);
      assert log[..|log| - 1][..k] == log[..k];
    }
  }

  /** The last three transfers read the chip at rest: not busy, no write enabled, locked, corrected reads. */
  predicate Resting(log: seq<Mark>) {
    && |log| >= 3
    && log[|log| - 3].Sent? && log[|log| - 3].c.GetStatus? && log[|log| - 3].value & 0x83 == 0
    && log[|log| - 2].Sent? && log[|log| - 2].c.GetA0? && log[|log| - 2].value == 0x7c
    && log[|log| - 1].Sent? && log[|log| - 1].c.GetB0? && log[|log| - 1].value == 0x10
  }

  /** `log` goes on from `was` without an array operation. */
  predicate Plain(was: seq<Mark>, log: seq<Mark>) {
    was <= log && Mutations(log) == Mutations(was)
  }

  lemma PlainSelf(a: seq<Mark>)
    ensures Plain(a, a)
  {
  }

  lemma PlainPrefix(a: seq<Mark>, b: seq<Mark>)
    requires Plain(a, b)
    ensures a <= b
  {
  }

  lemma PlainTrans(a: seq<Mark>, b: seq<Mark>, c: seq<Mark>)
    requires Plain(a, b) && Plain(b, c)
    ensures Plain(a, c)
  {
  }

  /** A page was fetched, at or after `from`, with this content. */
  ghost predicate ReadBack(log: seq<Mark>, from: nat, row: nat, raw: bool, page: Page) {
    exists m :: from <= m < |log| && log[m].Sent? && log[m].c == Fetch(row, raw) && log[m].page == page
  }

  ghost predicate AllErased(log: seq<Mark>, from: nat, row: nat, n: nat) {
    forall i :: row <= i < row + n ==> ReadBack(log, from, i, true, ERASED)
  }

  lemma ReadBackStays(a: seq<Mark>, b: seq<Mark>, from: nat, row: nat, raw: bool, page: Page)
    requires a <= b && ReadBack(a, from, row, raw, page)
    ensures ReadBack(b, from, row, raw, page)
  {
    var m :| from <= m < |a| && a[m].Sent? && a[m].c == Fetch(row, raw) && a[m].page == page;
    assert b[m] == a[m];
  }

  lemma AtRest(v: bv8, flags: bv8)
    requires v & 0x8f == flags && flags & 0xf3 == 0
    ensures v & 0x83 == 0
  {
    assert (v & 0x8f) & 0x83 == v & 0x83;
    assert flags & 0x83 == 0;
  }

  /** Blocks the capacity probe may change. */
  const PROBES: set<nat> := {0, 1, 511, 512, 1022, 1059, 1534, 1535, 1536, 1537, 1548, 1570, 1791, 1792, 2046, 2047}

  class Service {
    const extent: nat
    const blocks: seq<nat>
    var gate: bool
    var isOpen: bool
    var fault: bool
    var stopped: bool
    var readyKnown: bool
    var a0: bv8
    var b0: bv8
    var status: bv8
    var mediaFlags: bv8
    var lastNow: nat
    var lastRow: nat
    var deadline: nat
    ghost var log: seq<Mark>

    ghost predicate Valid()
      reads this
    {
      Disciplined(log) && mediaFlags & 0xf3 == 0
    }

    constructor (extent: nat, blocks: seq<nat>)
      ensures Valid() && this.extent == extent && this.blocks == blocks && log == [] && !gate && !fault && !isOpen
    {
      this.extent, this.blocks := extent, blocks;
      gate, isOpen, fault, stopped, readyKnown := false, false, false, true, false;
      a0, b0, status, mediaFlags, lastNow, lastRow, deadline := 0, 0, 0, 0, 0, 0, 0;
      log := [];
    }

    ghost method Note(m: Mark)
      requires Disciplined(log) && Due(log, m)
      modifies this`log
      ensures log == old(log) + [m] && Disciplined(log)
      ensures Mutations(log) == Mutations(old(log)) + (if m.Sent? && IsMutation(m.c) then 1 else 0)
    {
      log := log + [m];
      assert log[..|log| - 1] == old(log);
    }

    predicate Member(row: nat) {
      if extent == 2 || extent == 3 then row < 2048 * 64
      else row < 1536 * 64 && (extent == 1 || row / 64 in blocks)
    }

    /** The clock must go forward and stay before the call's deadline. */
    method Guard() returns (ok: bool)
      modifies this`fault, this`lastNow
      ensures ok ==> fault == old(fault)
      ensures !ok ==> fault
    {
      var now: nat := *;
      if now < lastNow || now >= deadline {
        fault := true;
        return false;
      }
      lastNow := now;
      return true;
    }

    /** The authority is asked for exactly this access; its refusal is not a fault. */
    method Admit(access: Access, row: nat) returns (ok: bool, denied: bool)
      requires Valid()
      modifies this`fault, this`lastNow, this`log
      ensures Valid() && (denied ==> !ok && log == old(log) && fault == old(fault))
      ensures ok ==> log == old(log) + [Granted(access, row)] && Member(row) && fault == old(fault)
      ensures !ok && !denied ==> fault && log == old(log)
      ensures Plain(old(log), log)
    {
      if !Member(row) || (extent == 2 && !access.ToRead? && row / 64 !in PROBES) {
        fault := true;
        return false, false;
      }
      ok := Guard();
      if !ok { return false, false; }
      var granted: bool := *;
      ok := Guard();
      if !ok { return false, false; }
      if !granted { return false, true; }
      Note(Granted(access, row));
      return true, false;
    }

    /** One transfer. Anything but a complete, stopped one is a fault, and after a fault there is none. */
    method Transfer(c: Command) returns (ok: bool, value: bv8, page: Page)
      requires Valid() && Due(log, Sent(c, 0, 0))
      modifies this`fault, this`lastNow, this`stopped, this`log
      ensures Valid() && (ok <==> !fault)
      ensures old(fault) ==> log == old(log)
      ensures log == old(log) || log == old(log) + [Sent(c, value, page)]
      ensures ok ==> log == old(log) + [Sent(c, value, page)] && stopped
      ensures Mutations(log) == Mutations(old(log)) + (if IsMutation(c) && |log| > |old(log)| then 1 else 0)
    {
      value, page := 0, 0;
      if !isOpen || !stopped || fault {
        fault := true;
        return false, 0, 0;
      }
      ok := Guard();
      if !ok { return; }
      value, page := *, *;
      Note(Sent(c, value, page));
      var whole: bool := *;
      stopped := *;
      if !whole || !stopped {
        fault := true;
        return false, value, page;
      }
      ok := Guard();
    }

    /** A transfer that is no array operation. */
    method Send(c: Command) returns (ok: bool, value: bv8, page: Page)
      requires Valid() && !IsMutation(c)
      modifies this`fault, this`lastNow, this`stopped, this`log
      ensures Valid() && (ok <==> !fault) && Plain(old(log), log) && (old(fault) ==> log == old(log))
      ensures ok ==> log == old(log) + [Sent(c, value, page)]
    {
      ok, value, page := Transfer(c);
    }

    method GetStatusByte() returns (ok: bool)
      requires Valid()
      modifies this`fault, this`lastNow, this`stopped, this`log, this`status
      ensures Valid() && (ok <==> !fault) && Plain(old(log), log) && (old(fault) ==> log == old(log))
      ensures ok ==> exists p :: log == old(log) + [Sent(GetStatus, status, p)]
    {
      var v: bv8, p: Page;
      ok, v, p := Transfer(GetStatus);
      if ok { status := v; }
    }

    /** One of the two registers, kept as read. */
    method GetRegister(get: Command) returns (ok: bool, v: bv8)
      requires Valid() && (get.GetA0? || get.GetB0?)
      modifies this`fault, this`lastNow, this`stopped, this`log, this`a0, this`b0
      ensures Valid() && (ok <==> !fault) && Plain(old(log), log) && (old(fault) ==> log == old(log))
      ensures ok ==> exists p :: log == old(log) + [Sent(get, v, p)]
      ensures ok ==> if get.GetA0? then a0 == v && b0 == old(b0) else b0 == v && a0 == old(a0)
    {
      var p: Page;
      ok, v, p := Send(get);
      if ok {
        if get.GetA0? { a0 := v; } else { b0 := v; }
      }
    }

    predicate Legal(c: Command) {
      if c.SetA0? then c.value == 0x48 || c.value == 0x7c || (c.value == 0 && (extent == 2 || extent == 3))
      else c.SetB0? && (c.value == 0 || c.value == 0x10)
    }

    /** A setting is written, read back, and the status looked at again. */
    method Setting(c: Command) returns (ok: bool)
      requires Valid() && (c.SetA0? || c.SetB0?)
      modifies this`fault, this`lastNow, this`stopped, this`log, this`status, this`a0, this`b0
      ensures Valid() && (ok <==> !fault) && Plain(old(log), log) && (old(fault) ==> log == old(log))
      ensures ok ==> readyKnown && Legal(c) && status & 0x8f == mediaFlags
      ensures ok ==> if c.SetA0? then a0 == c.value && b0 == old(b0) else b0 == c.value && a0 == old(a0)
      ensures ok ==> |log| == |old(log)| + 3 && old(log) <= log && Is(log[|old(log)|], c)
                     && Is(log[|old(log)| + 1], if c.SetA0? then GetA0 else GetB0)
                       && log[|old(log)| + 1].value == c.value
    {
      hide Disciplined, Plain;
      PlainSelf(log);
      if !readyKnown || !Legal(c) {
        fault := true;
        return false;
      }
      var v: bv8, p: Page;
      ok, v, p := Send(c);
      if !ok { return; }
      ghost var one := log;
      ok, v := GetRegister(if c.SetA0? then GetA0 else GetB0);
      PlainTrans(old(log), one, log);
      if !ok { return; }
      if v != c.value {
        fault := true;
        return false;
      }
      ghost var two := log;
      ok := GetStatusByte();
      PlainTrans(old(log), two, log);
      if ok && status & 0x8f != mediaFlags {
        fault := true;
        ok := false;
      }
    }

    /** Polls until the chip is neither busy nor cache-busy; at most 256 times. */
    method Ready() returns (ok: bool)
      requires Valid()
      modifies this`fault, this`lastNow, this`stopped, this`log, this`status, this`readyKnown
      ensures Valid() && (ok <==> !fault) && Plain(old(log), log) && (old(fault) ==> log == old(log))
      ensures ok ==> readyKnown && status & 0x81 == 0
    {
      readyKnown := false;
      for i := 0 to 256
        invariant Valid() && Plain(old(log), log) && fault == old(fault) && (fault ==> log == old(log))
      {
        ok := Guard();
        if !ok { return; }
        ok := GetStatusByte();
        if !ok { return; }
        if status & 0x80 != 0 {
          fault := true;
          return false;
        }
        if status & 1 == 0 {
          BusyBits(status);
          readyKnown := true;
          return true;
        }
        var late: bool := *;
        if late {
          fault := true;
          return false;
        }
        ok := Guard();
        if !ok { return; }
      }
      fault := true;
      return false;
    }

    /** The chip is seen at rest. */
    method Baseline() returns (ok: bool)
      requires Valid()
      modifies this`fault, this`lastNow, this`stopped, this`log, this`status, this`a0, this`b0
      ensures Valid() && (ok <==> !fault) && Plain(old(log), log) && (old(fault) ==> log == old(log))
      ensures ok ==> Resting(log) && a0 == 0x7c && b0 == 0x10 && readyKnown
    {
      hide Disciplined, Plain;
      PlainSelf(log);
      if !isOpen || !readyKnown {
        fault := true;
        return false;
      }
      ok := GetStatusByte();
      if !ok { return; }
      if status & 0x8f != mediaFlags {
        fault := true;
        return false;
      }
      AtRest(status, mediaFlags);
      ghost var one := log;
      var v: bv8;
      ok, v := GetRegister(GetA0);
      PlainTrans(old(log), one, log);
      if !ok { return; }
      if v != 0x7c {
        fault := true;
        return false;
      }
      ghost var two := log;
      ok, v := GetRegister(GetB0);
      PlainTrans(old(log), two, log);
      if !ok { return; }
      if v != 0x10 {
        fault := true;
        return false;
      }
    }

    /** Admission to the service: one caller, no fault, a clock that did not go back, a deadline ahead. */
    method LockGate(until: nat) returns (go: bool, r: Result)
      modifies this`gate, this`fault, this`lastNow, this`deadline
      ensures go ==> gate && !old(gate) && !fault && !old(fault)
      ensures !go ==> gate == old(gate) && (r.Busy? || r.Argument? || r.Fault?)
      ensures !go ==> (r.Fault? ==> fault) && (old(gate) ==> r.Busy?) && (!old(gate) && old(fault) ==> r.Fault?)
      ensures old(fault) ==> fault
      ensures !r.Fault? ==> fault == old(fault)
    {
      if gate { return false, Busy; }
      gate := true;
      if fault {
        gate := false;
        return false, Fault;
      }
      var now: nat := *;
      if now < lastNow {
        fault := true;
        gate := false;
        return false, Fault;
      }
      if until <= now || until - now > 120000 {
        gate := false;
        return false, Argument;
      }
      deadline, lastNow := until, now;
      return true, Ok(false);
    }

    /** What every call leaves behind: a call that answers OK or MEDIA saw the chip at rest as its last
        transfers; one that was denied or refused issued none; one that faulted stays faulted. */
    ghost predicate Left(was: seq<Mark>, wasFault: bool, r: Result)
      reads this
    {
      && Valid() && was <= log
      && (r.Ok? ==> Resting(log) && a0 == 0x7c && b0 == 0x10 && !fault)
      && (r.Denied? || r.Busy? || r.Argument? ==> log == was && fault == wasFault)
      && (r.Fault? ==> fault) && (wasFault ==> !r.Ok? && log == was)
    }

    method Open(until: nat) returns (r: Result)
      requires Valid()
      modifies this
      ensures Left(old(log), old(fault), r) && Plain(old(log), log) && gate == old(gate)
      ensures r.Ok? ==> isOpen
    {
      hide Disciplined, Plain, Resting;
      PlainSelf(log);
      var go: bool;
      go, r := LockGate(until);
      if !go { return; }
      if isOpen {
        gate := false;
        return Argument;
      }
      r := OpenLocked();
      gate := false;
      PlainPrefix(old(log), log);
    }

    method OpenLocked() returns (r: Result)
      requires Valid() && !fault && !isOpen
      modifies this`fault, this`lastNow, this`stopped, this`log, this`status, this`a0, this`b0, this`readyKnown,
               this`isOpen, this`mediaFlags
      ensures Valid() && Plain(old(log), log) && (r.Ok? || r.Fault?)
      ensures r.Ok? ==> Resting(log) && a0 == 0x7c && b0 == 0x10 && !fault && isOpen
      ensures r.Fault? ==> fault
    {
      hide Disciplined, Plain, Resting;
      PlainSelf(log);
      var bus: bool := *;
      var ok := Guard();
      if !bus || !ok {
        fault := true;
        return Fault;
      }
      isOpen := true;
      var v: bv8, id: Page;
      ok, v, id := Send(ReadId);
      var known: bool := *;
      if !ok || !known {
        fault := true;
        return Fault;
      }
      ghost var one := log;
      ok := Ready();
      PlainTrans(old(log), one, log);
      if !ok { return Fault; }
      mediaFlags := status & 12;
      FlagBits(status);
      if status & 2 != 0 {
        ghost var two := log;
        ok := DisableWrites();
        PlainTrans(old(log), two, log);
        if !ok { return Fault; }
      }
      ghost var three := log;
      ok := Baseline();
      PlainTrans(old(log), three, log);
      return if ok then Ok(false) else Fault;
    }

    method DisableWrites() returns (ok: bool)
      requires Valid()
      modifies this`fault, this`lastNow, this`stopped, this`log, this`status
      ensures Valid() && (ok <==> !fault) && Plain(old(log), log) && (old(fault) ==> log == old(log))
    {
      hide Disciplined, Plain;
      var v: bv8, p: Page;
      ok, v, p := Send(WriteDisable);
      if !ok { return; }
      ghost var one := log;
      ok := GetStatusByte();
      PlainTrans(old(log), one, log);
    }

    /** A page into the cache, waited for, with the media flags unchanged. */
    method LoadCache(row: nat) returns (ok: bool)
      requires Valid()
      modifies this`fault, this`lastNow, this`stopped, this`log, this`status, this`readyKnown, this`lastRow
      ensures Valid() && (ok <==> !fault) && Plain(old(log), log) && (old(fault) ==> log == old(log))
      ensures ok ==> readyKnown && lastRow == row
    {
      hide Disciplined, Plain;
      lastRow, readyKnown := row, false;
      var v: bv8, p: Page;
      ok, v, p := Send(LoadRow(row));
      if !ok { return; }
      ghost var one := log;
      ok := Ready();
      PlainTrans(old(log), one, log);
      if !ok { return; }
      if status & 0x8f != mediaFlags {
        fault := true;
        return false;
      }
    }

    /** A page, corrected or raw. The caller sees it only after the registers were restored. */
    method Read(row: nat, raw: bool, until: nat) returns (r: Result, page: Page)
      requires Valid()
      modifies this
      ensures Left(old(log), old(fault), r) && Plain(old(log), log) && gate == old(gate)
      ensures r.Ok? ==> ReadBack(log, |old(log)|, row, raw, page)
    {
      hide Disciplined, Plain, Resting, ReadBack;
      PlainSelf(log);
      page := 0;
      var go: bool;
      go, r := LockGate(until);
      if !go { return; }
      var ok, denied := Admit(ToRead, row);
      if !ok {
        gate := false;
        return if denied then Denied else Fault, 0;
      }
      ghost var one := log;
      ok, page := ReadAdmitted(row, raw);
      PlainTrans(old(log), one, log);
      gate := false;
      if ok { ReadBackEarlier(log, |one|, |old(log)|, row, raw, page); }
      r := if ok then Ok(false) else Fault;
    }

    method ReadAdmitted(row: nat, raw: bool) returns (ok: bool, page: Page)
      requires Valid() && !fault
      modifies this`fault, this`lastNow, this`stopped, this`log, this`status, this`a0, this`b0, this`readyKnown,
               this`lastRow
      ensures Valid() && (ok <==> !fault) && Plain(old(log), log)
      ensures ok ==> Resting(log) && a0 == 0x7c && b0 == 0x10 && ReadBack(log, |old(log)|, row, raw, page)
    {
      hide Disciplined, Plain, Resting, ReadBack;
      page := 0;
      ok := Baseline();
      if !ok { return; }
      if raw {
        ghost var one := log;
        ok := Setting(SetB0(0));
        PlainTrans(old(log), one, log);
        if !ok { return; }
      }
      ghost var two := log;
      ok := LoadCache(row);
      PlainTrans(old(log), two, log);
      if !ok { return; }
      ok, page := FetchRestored(row, raw, old(log));
      if !ok { return; }
      var late := Guard();
      ok := late;
    }

    /** The cache out, corrected reads again, and the chip seen at rest. */
    method FetchRestored(row: nat, raw: bool, ghost was: seq<Mark>) returns (ok: bool, page: Page)
      requires Valid() && Plain(was, log)
      modifies this`fault, this`lastNow, this`stopped, this`log, this`status, this`a0, this`b0
      ensures Valid() && (ok <==> !fault) && Plain(was, log)
      ensures ok ==> Resting(log) && a0 == 0x7c && b0 == 0x10 && ReadBack(log, |was|, row, raw, page)
    {
      hide Disciplined, Plain, Resting, ReadBack;
      var v: bv8;
      ghost var one := log;
      ok, v, page := Send(Fetch(row, raw));
      PlainTrans(was, one, log);
      if !ok { return; }
      Fetched(was, one, log, row, raw, v, page);
      ghost var two := log;
      if raw {
        ok := Setting(SetB0(0x10));
        PlainTrans(was, two, log);
        if !ok { return; }
      }
      ghost var three := log;
      PlainSelf(two);
      ok := Baseline();
      PlainTrans(was, three, log);
      PlainTrans(two, three, log);
      if ok { ReadBackKept(two, log, |was|, row, raw, page); }
    }

    /** A fresh read of the whole page, and every byte as it was given. */
    method VerifyProgram(row: nat, main: Page) returns (ok: bool)
      requires Valid() && !fault
      modifies this`fault, this`lastNow, this`stopped, this`log, this`status, this`a0, this`b0, this`readyKnown,
               this`lastRow
      ensures Valid() && (ok <==> !fault) && Plain(old(log), log)
      ensures ok ==> Resting(log) && a0 == 0x7c && b0 == 0x10 && ReadBack(log, |old(log)|, row, false, main)
    {
      hide Disciplined, Plain, Resting, ReadBack;
      var denied: bool;
      ok, denied := Admit(ToRead, row);
      if !ok {
        fault := true;
        return false;
      }
      ghost var one := log;
      ok := LoadCache(row);
      PlainTrans(old(log), one, log);
      if !ok { return; }
      var ecc: bool := *;
      if !ecc {
        fault := true;
        return false;
      }
      var v: bv8, page: Page;
      ghost var two := log;
      ok, v, page := Send(Fetch(row, false));
      PlainTrans(old(log), two, log);
      if !ok { return; }
      Fetched(old(log), two, log, row, false, v, page);
      if page != main {
        fault := true;
        return false;
      }
      ghost var three := log;
      ok := Baseline();
      PlainTrans(old(log), three, log);
      if !ok { return; }
      ReadBackKept(three, log, |old(log)|, row, false, main);
      ok := Guard();
    }

    /** Raw read-back of one page of an erased block: all of it FF. */
    method VerifyErased(row: nat) returns (ok: bool)
      requires Valid() && !fault
      modifies this`fault, this`lastNow, this`stopped, this`log, this`status, this`a0, this`b0, this`readyKnown,
               this`lastRow
      ensures Valid() && (ok <==> !fault) && Plain(old(log), log)
      ensures ok ==> Resting(log) && a0 == 0x7c && b0 == 0x10 && ReadBack(log, |old(log)|, row, true, ERASED)
    {
      hide Disciplined, Plain, Resting, ReadBack;
      var denied: bool;
      ok, denied := Admit(ToRead, row);
      if !ok {
        fault := true;
        return false;
      }
      ghost var one := log;
      ok := Setting(SetB0(0));
      PlainTrans(old(log), one, log);
      if !ok { return; }
      ghost var two := log;
      ok := LoadCache(row);
      PlainTrans(old(log), two, log);
      if !ok { return; }
      var page: Page;
      ok, page := FetchRestored(row, true, old(log));
      if !ok { return; }
      ok := Guard();
      if ok && page != ERASED {
        fault := true;
        ok := false;
      }
    }

    /** Every one of the 64 pages. */
    method VerifyErase(row: nat) returns (ok: bool)
      requires Valid() && !fault
      modifies this`fault, this`lastNow, this`stopped, this`log, this`status, this`a0, this`b0, this`readyKnown,
               this`lastRow
      ensures Valid() && (ok <==> !fault) && Plain(old(log), log)
      ensures ok ==> Resting(log) && a0 == 0x7c && b0 == 0x10
      ensures ok ==> AllErased(log, |old(log)|, row, 64)
    {
      hide Disciplined, Plain, Resting, ReadBack;
      PlainSelf(log);
      ok := true;
      for p := 0 to 64
        invariant Valid() && !fault && Plain(old(log), log)
        invariant p > 0 ==> Resting(log) && a0 == 0x7c && b0 == 0x10
        invariant AllErased(log, |old(log)|, row, p)
      {
        ghost var one := log;
        ok := VerifyErased(row + p);
        PlainTrans(old(log), one, log);
        if !ok { return; }
        PlainPrefix(old(log), one);
        ReadBackEarlier(log, |one|, |old(log)|, row + p, true, ERASED);
        forall i | row <= i < row + p ensures ReadBack(log, |old(log)|, i, true, ERASED) {
          ReadBackKept(one, log, |old(log)|, i, true, ERASED);
        }
      }
      ok := true;
    }

    /** A grant, the write latch set, and seen set with the chip ready. */
    method Latch(c: Command, ghost was: seq<Mark>) returns (ok: bool, ghost on: Mark, ghost seen: Mark)
      requires Valid() && !fault && Plain(was, log) && IsMutation(c)
      modifies this`fault, this`lastNow, this`stopped, this`log, this`status
      ensures Valid() && (ok <==> !fault) && Plain(was, log)
      ensures ok ==> log == old(log) + [Granted(AccessOf(c), c.row), on, seen]
      ensures ok ==> Is(on, WriteEnable) && Is(seen, GetStatus) && seen.value & 0x83 == 2
    {
      hide Disciplined, Plain, Resting, Mutations;
      on, seen := Granted(ToRead, 0), Granted(ToRead, 0);
      var denied: bool;
      ok, denied := Admit(AccessOf(c), c.row);
      PlainTrans(was, old(log), log);
      if !ok {
        fault := true;
        return;
      }
      var v: bv8, p: Page;
      ghost var three := log;
      ok, v, p := Send(WriteEnable);
      PlainTrans(was, three, log);
      if !ok { return; }
      on := Sent(WriteEnable, v, p);
      ghost var four := log;
      ok := GetStatusByte();
      PlainTrans(was, four, log);
      if !ok { return; }
      seen := log[|log| - 1];
      if status & 0x8f != mediaFlags | 2 {
        fault := true;
        ok := false;
        return;
      }
      LatchBits(status, mediaFlags);
    }

    /** Everything before the array operation: unlocked, granted, write latch seen set, page loaded, granted again. */
    method Prepare(c: Command, main: Page, ghost was: seq<Mark>) returns (ok: bool)
      requires Valid() && !fault && Plain(was, log) && IsMutation(c)
      modifies this`fault, this`lastNow, this`stopped, this`log, this`status, this`a0, this`b0
      ensures Valid() && (ok <==> !fault) && Plain(was, log)
      ensures ok ==> Armed(log, c) && Loaded(log, c, main)
    {
      hide Disciplined, Plain, Resting, Mutations, Armed, Loaded;
      ok := Baseline();
      PlainTrans(was, old(log), log);
      if !ok { return; }
      ghost var one := log;
      var key: bv8 := if (extent == 2 || extent == 3) && c.row >= 1536 * 64 then 0 else 0x48;
      ok := Setting(SetA0(key));
      PlainTrans(was, one, log);
      if !ok { return; }
      ghost var two := log;
      ghost var on, seen;
      ok, on, seen := Latch(c, was);
      if !ok { return; }
      ghost var load: seq<Mark> := [];
      ghost var three := log;
      if c.Execute? {
        var v: bv8, p: Page;
        ok, v, p := Send(LoadPage(main));
        PlainTrans(was, three, log);
        if !ok { return; }
        load := [Sent(LoadPage(main), v, p)];
      }
      ghost var six := log;
      var denied: bool;
      ok, denied := Admit(AccessOf(c), c.row);
      PlainTrans(was, six, log);
      if !ok {
        fault := true;
        return false;
      }
      ArmedBy(two, on, seen, load, c, main, log);
    }

    /** The array operation itself, and the chip brought back to rest whatever its outcome. */
    method Operate(c: Command, row: nat, main: Page, checked: bool, ghost was: seq<Mark>)
        returns (ok: bool, media: bool)
      requires Valid() && !fault && IsMutation(c) && c.row == row && Plain(was, log)
      requires Armed(log, c) && Loaded(log, c, main)
      modifies this`fault, this`lastNow, this`stopped, this`log, this`status, this`a0, this`b0, this`readyKnown,
               this`lastRow, this`mediaFlags
      ensures Valid() && (ok <==> !fault) && Operated(was, log, c, main)
      ensures ok ==> Resting(log) && a0 == 0x7c && b0 == 0x10 && Mutations(log) == Mutations(was) + 1
    {
      hide Disciplined, Plain, Resting, Mutations;
      media := false;
      lastRow, readyKnown := row, false;
      var v: bv8, p: Page;
      ghost var before := log;
      ok, v, p := Transfer(c);
      OperationDone(was, before, log, c, main, v, p);
      if !ok { return; }
      ghost var after := log;
      PlainSelf(after);
      ok := Ready();
      OperatedThenPlain(was, after, log, c, main);
      if !ok { return; }
      var erase := c.Erase?;
      var bit: bv8, other: bv8 := if erase then 4 else 8, if erase then 8 else 4;
      var outcome := status & 0x8f;
      if outcome & 0x81 != 0 || outcome & other != mediaFlags & other {
        fault := true;
        return false, false;
      }
      media := outcome & bit != 0;
      mediaFlags := outcome & 12;
      FlagBits(outcome);
      if outcome & 2 != 0 {
        if !media && !checked {
          fault := true;
          return false, false;
        }
        ghost var one := log;
        ok := DisableWrites();
        PlainTrans(after, one, log);
        OperatedThenPlain(was, one, log, c, main);
        if !ok { return; }
        if status & 0x8f != mediaFlags {
          fault := true;
          return false, false;
        }
      }
      ok := RestoreAfter(c, main, was, after);
    }

    /** Locked again and seen at rest. */
    method RestoreAfter(c: Command, ghost main: Page, ghost was: seq<Mark>, ghost after: seq<Mark>) returns (ok: bool)
      requires Valid() && !fault && Plain(after, log) && Operated(was, log, c, main)
        && Mutations(after) == Mutations(was) + 1
      modifies this`fault, this`lastNow, this`stopped, this`log, this`status, this`a0, this`b0
      ensures Valid() && (ok <==> !fault) && Operated(was, log, c, main)
      ensures ok ==> Resting(log) && a0 == 0x7c && b0 == 0x10 && Mutations(log) == Mutations(was) + 1
    {
      hide Disciplined, Plain, Resting, Mutations;
      ghost var one := log;
      ok := Setting(SetA0(0x7c));
      PlainTrans(after, one, log);
      OperatedThenPlain(was, one, log, c, main);
      if !ok { return; }
      ghost var two := log;
      ok := Baseline();
      PlainTrans(after, two, log);
      OperatedThenPlain(was, two, log, c, main);
      if !ok { return; }
      SameMutations(after, log);
      ok := Guard();
    }

    /** Programs or erases. At most one array operation, only on this row, only after its grant. A checked
        call that answers OK read back what was asked for. */
    method Mutation(c: Command, main: Page, checked: bool, until: nat) returns (r: Result)
      requires Valid() && IsMutation(c)
      modifies this
      ensures Left(old(log), old(fault), r) && Operated(old(log), log, c, main) && gate == old(gate)
      ensures r.Ok? ==> Mutations(log) == Mutations(old(log)) + 1
      ensures r == Ok(false) && checked && c.Execute? ==> ReadBack(log, |old(log)|, c.row, false, main)
      ensures r == Ok(false) && checked && c.Erase? ==> AllErased(log, |old(log)|, c.row, 64)
    {
      hide Disciplined, Plain, Resting, Mutations, ReadBack, AllErased;
      PlainSelf(log);
      PlainOperated(log, log, c, main);
      if c.Erase? && c.row % 64 != 0 { return Argument; }
      var go: bool;
      go, r := LockGate(until);
      if !go { return; }
      var ok, denied := Admit(AccessOf(c), c.row);
      PlainOperated(old(log), log, c, main);
      PlainPrefix(old(log), log);
      if !ok {
        gate := false;
        return if denied then Denied else Fault;
      }
      r := MutationAdmitted(c, main, checked, old(log));
      gate := false;
    }

    method MutationAdmitted(c: Command, main: Page, checked: bool, ghost was: seq<Mark>) returns (r: Result)
      requires Valid() && !fault && IsMutation(c) && Plain(was, log)
      modifies this`fault, this`lastNow, this`stopped, this`log, this`status, this`a0, this`b0, this`readyKnown,
               this`lastRow, this`mediaFlags
      ensures Valid() && Operated(was, log, c, main) && (r.Ok? || r.Fault?) && (r.Fault? ==> fault)
      ensures r.Ok? ==> Resting(log) && a0 == 0x7c && b0 == 0x10 && !fault && Mutations(log) == Mutations(was) + 1
      ensures r == Ok(false) && checked && c.Execute? ==> ReadBack(log, |was|, c.row, false, main)
      ensures r == Ok(false) && checked && c.Erase? ==> AllErased(log, |was|, c.row, 64)
    {
      hide Disciplined, Plain, Resting, Mutations, ReadBack, AllErased;
      var ok := Prepare(c, main, was);
      PlainOperated(was, log, c, main);
      if !ok { return Fault; }
      var media: bool;
      ok, media := Operate(c, c.row, main, checked, was);
      if !ok { return Fault; }
      if checked && !media {
        ghost var done := log;
        if c.Execute? {
          ok := VerifyProgram(c.row, main);
        } else {
          ok := VerifyErase(c.row);
        }
        OperatedThenPlain(was, done, log, c, main);
        SameMutations(done, log);
        PlainPrefix(done, log);
        if !ok { return Fault; }
        OperatedPrefix(was, done, c, main);
        if c.Execute? {
          ReadBackEarlier(log, |done|, |was|, c.row, false, main);
        } else {
          AllErasedEarlier(log, |done|, |was|, c.row);
        }
      }
      return Ok(media);
    }

    method Close(until: nat) returns (r: Result)
      requires Valid()
      modifies this
      ensures Left(old(log), old(fault), r) && Plain(old(log), log) && gate == old(gate)
      ensures r.Ok? ==> !isOpen
    {
      hide Disciplined, Plain, Resting;
      PlainSelf(log);
      var go: bool;
      go, r := LockGate(until);
      if !go { return; }
      var ok := Baseline();
      PlainPrefix(old(log), log);
      gate := false;
      if !ok { return Fault; }
      var released: bool := *;
      ok := Guard();
      if !released || !ok {
        fault := true;
        return Fault;
      }
      isOpen := false;
      return Ok(false);
    }
  }

  /** Since `was` at most one array operation was issued, it was `c`, and a program was loaded with `main`. */
  predicate Operated(was: seq<Mark>, log: seq<Mark>, c: Command, main: Page) {
    && was <= log && Mutations(log) <= Mutations(was) + 1
    && forall k :: |was| <= k < |log| && log[k].Sent? && IsMutation(log[k].c) ==> OperatedAt(log, k, c, main)
  }

  predicate OperatedAt(log: seq<Mark>, k: nat, c: Command, main: Page)
    requires k < |log|
  {
    Is(log[k], c) && (c.Execute? ==> k >= 2 && Is(log[k - 2], LoadPage(main)))
  }

  lemma OperatedPrefix(was: seq<Mark>, log: seq<Mark>, c: Command, main: Page)
    requires Operated(was, log, c, main)
    ensures was <= log
  {
  }

  lemma SameMutations(a: seq<Mark>, b: seq<Mark>)
    requires Plain(a, b)
    ensures Mutations(b) == Mutations(a)
  {
  }

  lemma {:induction false} MutationsGrow(a: seq<Mark>, b: seq<Mark>)
    requires a <= b
    ensures Mutations(a) <= Mutations(b)
    decreases |b|
  {
    if |b| > |a| { MutationsGrow(a, b[..|b| - 1]); } else { assert a == b; }
  }

  /** Nothing plain is an array operation. */
  lemma {:induction false} PlainHasNone(a: seq<Mark>, b: seq<Mark>, k: nat)
    requires Plain(a, b) && |a| <= k < |b|
    ensures !(b[k].Sent? && IsMutation(b[k].c))
    decreases |b|
  {
    var c := b[..|b| - 1];
    MutationsGrow(a, c);
    if k < |b| - 1 { PlainHasNone(a, c, k); }
  }

  lemma PlainOperated(was: seq<Mark>, log: seq<Mark>, c: Command, main: Page)
    requires Plain(was, log)
    ensures Operated(was, log, c, main)
  {
    forall k | |was| <= k < |log| ensures !(log[k].Sent? && IsMutation(log[k].c)) { PlainHasNone(was, log, k); }
  }

  lemma OperatedThenPlain(was: seq<Mark>, a: seq<Mark>, b: seq<Mark>, c: Command, main: Page)
    requires Operated(was, a, c, main) && Plain(a, b)
    ensures Operated(was, b, c, main)
  {
    forall k | |was| <= k < |b| && b[k].Sent? && IsMutation(b[k].c) ensures OperatedAt(b, k, c, main) {
      if k < |a| {
        assert b[k] == a[k] && OperatedAt(a, k, c, main);
        assert k >= 2 ==> b[k - 2] == a[k - 2];
      } else {
        PlainHasNone(a, b, k);
      }
    }
  }

  lemma OperationDone(was: seq<Mark>, a: seq<Mark>, b: seq<Mark>, c: Command, main: Page, v: bv8, p: Page)
    requires Plain(was, a) && (b == a || b == a + [Sent(c, v, p)]) && IsMutation(c) && Loaded(a, c, main)
    ensures Operated(was, b, c, main) && (b != a ==> Mutations(b) == Mutations(was) + 1)
  {
    PlainOperated(was, a, c, main);
    if b != a {
      assert b[..|b| - 1] == a;
      forall k | |was| <= k < |b| && b[k].Sent? && IsMutation(b[k].c) ensures OperatedAt(b, k, c, main) {
        if k < |a| { PlainHasNone(was, a, k); }
      }
    }
  }

  lemma ArmedBy(two: seq<Mark>, on: Mark, seen: Mark, load: seq<Mark>, c: Command, main: Page, log: seq<Mark>)
    requires |two| >= 3 && IsMutation(c)
    requires two[|two| - 3].Sent? && two[|two| - 3].c.SetA0? && Is(two[|two| - 2], GetA0)
      && two[|two| - 2].value == two[|two| - 3].c.value
    requires two[|two| - 2].value == 0 || two[|two| - 2].value == 0x48
    requires Is(on, WriteEnable) && Is(seen, GetStatus) && seen.value & 0x83 == 2
    requires if c.Execute? then |load| == 1 && Is(load[0], LoadPage(main)) else load == []
    requires log == two + [Granted(AccessOf(c), c.row), on, seen] + load + [Granted(AccessOf(c), c.row)]
    ensures Armed(log, c) && Loaded(log, c, main)
  {
  }

  lemma LatchBits(v: bv8, flags: bv8)
    requires v & 0x8f == flags | 2 && flags & 0xf3 == 0
    ensures v & 0x83 == 2
  {
    assert (v & 0x8f) & 0x83 == v & 0x83;
    assert (flags | 2) & 0x83 == 2;
  }

  lemma AllErasedEarlier(log: seq<Mark>, from: nat, earlier: nat, row: nat)
    requires earlier <= from && AllErased(log, from, row, 64)
    ensures AllErased(log, earlier, row, 64)
  {
    forall i | row <= i < row + 64 ensures ReadBack(log, earlier, i, true, ERASED) {
      ReadBackEarlier(log, from, earlier, i, true, ERASED);
    }
  }

  lemma FlagBits(v: bv8)
    ensures (v & 12) & 0xf3 == 0
  {
  }

  lemma ReadBackEarlier(log: seq<Mark>, from: nat, earlier: nat, row: nat, raw: bool, page: Page)
    requires earlier <= from && ReadBack(log, from, row, raw, page)
    ensures ReadBack(log, earlier, row, raw, page)
  {
  }

  lemma ReadBackKept(a: seq<Mark>, b: seq<Mark>, from: nat, row: nat, raw: bool, page: Page)
    requires Plain(a, b) && ReadBack(a, from, row, raw, page)
    ensures ReadBack(b, from, row, raw, page)
  {
    ReadBackStays(a, b, from, row, raw, page);
  }

  lemma Fetched(was: seq<Mark>, a: seq<Mark>, b: seq<Mark>, row: nat, raw: bool, v: bv8, page: Page)
    requires Plain(was, a) && b == a + [Sent(Fetch(row, raw), v, page)]
    ensures ReadBack(b, |was|, row, raw, page)
  {
    assert b[|a|] == Sent(Fetch(row, raw), v, page);
  }

  lemma BusyBits(v: bv8)
    requires v & 0x80 == 0 && v & 1 == 0
    ensures v & 0x81 == 0
  {
  }
}
