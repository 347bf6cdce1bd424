/**
 The recover-only run of the public object: it identifies the chip, reads the qualified pattern, the DATA
 page and the COMMIT page, and puts back what it changed, which is nothing.
 */
module ObjectRecovery {
  import opened Bytes
  import opened OwnedPage

  const MAX_STARTS: nat := 1024
  const POLLS: nat := 8

  datatype Op =
    | Id | GetC0 | GetA0 | GetB0 | RawOff | RawOn | Unlock | Lock | LoadCache | ReadRaw | ReadMain
    | WriteEnable | WriteDisable

  /** The operations that cannot change the chip or its settings. */
  predicate IsRead(op: Op) { op.Id? || op.GetC0? || op.GetA0? || op.GetB0? || op.LoadCache? || op.ReadMain? }

  predicate Shows(v: bv8, mask: bv8, want: bv8) { v & mask == want }

  /** Locked, with ECC on, and neither busy nor write-enabled. */
  predicate AtRest(a0: bv8, b0: bv8, c0: bv8) { Shows(a0, 0xff, 0x7c) && Shows(b0, 0xff, 0x10) && Shows(c0, 0x83, 0) }

  predicate AllReads(ops: seq<Op>) { forall i :: 0 <= i < |ops| ==> IsRead(ops[i]) }

  lemma MoreReads(ops: seq<Op>, op: Op)
    ensures AllReads(ops) && IsRead(op) ==> AllReads(ops + [op])
  {
  }

  /** An answer of the transfer function; `exact` says all bytes went out and came in. */
  datatype Reply = Reply(ok: bool, started: bool, stopped: bool, exact: bool, byte: bv8, id: bool, page: seq<Byte>)

  datatype Outcome = Verified | RestoreError | CleanupError | Failed

  /** The payload the object carries. */
  function Payload(): (p: seq<Byte>)
    ensures |p| == PAYLOAD
  {
    seq(PAYLOAD, i requires 0 <= i < PAYLOAD => (73 * i + 19 * (i / 256) + 0x5a) % 256)
  }

  class Recovery {
    const hash: Provider
    const pattern: seq<Byte>
    const name: seq<Byte>
    const dataAt: Binding
    const commitAt: Binding
    var starts: nat
    var wrens: nat
    var a0Dirty: bool
    var b0Dirty: bool
    var readyUnknown: bool
    var fault: bool
    var a0: bv8
    var b0: bv8
    var c0: bv8
    var primary: bool
    var restoring: bool
    var patternValid: bool
    var dataValid: bool
    var commitValid: bool
    var restored: bool
    var restoreFailed: bool
    /** The transfers that started, whether one was refused for want of budget, and the pages read whole. */
    ghost var ops: seq<Op>
    ghost var capped: bool
    ghost var seen: seq<seq<Byte>>

    constructor (hash: Provider, pattern: seq<Byte>, name: seq<Byte>, dataAt: Binding, commitAt: Binding)
      ensures this.hash == hash && this.pattern == pattern && this.name == name && this.dataAt == dataAt
        && this.commitAt == commitAt
      ensures Unstarted()
    {
      this.hash, this.pattern, this.name, this.dataAt, this.commitAt := hash, pattern, name, dataAt, commitAt;
      starts, wrens, a0Dirty, b0Dirty, readyUnknown, fault, a0, b0, c0 := 0, 0, false, false, false, false, 0, 0, 0;
      primary, restoring, patternValid, dataValid, commitValid, restored, restoreFailed := false, false, false, false,
        false, false, false;
      ops, capped, seen := [], false, [];
    }

    ghost predicate Unstarted()
      reads this
    {
      && starts == 0 && wrens == 0 && !a0Dirty && !b0Dirty && !readyUnknown && !fault && !primary && !restoring
        && !patternValid
      && !dataValid && !commitValid && !restored && !restoreFailed && ops == [] && !capped && seen == []
    }

    /** Nothing but reads was started. */
    ghost predicate OnlyReads()
      reads this
    {
      |ops| == starts && wrens == 0 && !a0Dirty && !b0Dirty && AllReads(ops)
    }

    function Cap(): nat
      reads this
    {
      if restoring then MAX_STARTS else MAX_STARTS - 24
    }

    /** What a started transfer is booked as. */
    method Account(op: Op)
      requires |ops| == starts
      modifies this`starts, this`ops, this`wrens, this`a0Dirty, this`b0Dirty, this`readyUnknown
      ensures starts == old(starts) + 1 && ops == old(ops) + [op]
        && readyUnknown == (old(readyUnknown) || op.LoadCache?)
      ensures old(OnlyReads()) && IsRead(op) ==> OnlyReads()
    {
      hide AllReads;
      MoreReads(ops, op);
      starts, ops := starts + 1, ops + [op];
      if op.Unlock? || op.Lock? { a0Dirty := true; }
      if op.RawOff? || op.RawOn? { b0Dirty := true; }
      if op.WriteEnable? { wrens := wrens + 1; }
      if op.LoadCache? { readyUnknown := true; }
    }

    /** One transfer. It counts when it started, however it ended. */
    method Step(op: Op) returns (ok: bool, r: Reply)
      requires |ops| == starts
      modifies this`starts, this`ops, this`wrens, this`a0Dirty, this`b0Dirty, this`readyUnknown, this`fault, this`a0,
               this`b0, this`c0, this`primary, this`capped
      ensures |ops| == starts && old(starts) <= starts <= old(starts) + 1 && (ok ==> starts == old(starts) + 1)
      ensures old(OnlyReads()) && IsRead(op) ==> OnlyReads()
      ensures capped == (old(capped) || old(starts) >= Cap())
      ensures if ok then primary == old(primary) && fault == old(fault) else primary || restoring
      ensures old(primary) ==> primary
      ensures ok && op.GetC0? ==> c0 == r.byte && (readyUnknown == old(readyUnknown))
      ensures (ok && op.GetA0? ==> a0 == r.byte) && (ok && op.GetB0? ==> b0 == r.byte)
      ensures (!op.GetA0? ==> a0 == old(a0)) && (!op.GetB0? ==> b0 == old(b0))
      ensures !op.GetC0? ==> c0 == old(c0)
    {
      hide AllReads;
      r := Reply(false, false, true, false, 0, false, []);
      if starts >= Cap() {
        primary, capped := true, true;
        return false, r;
      }
      var stop: bool := *;
      if stop {
        if !restoring { primary := true; }
        return false, r;
      }
      r := *;
      if r.started { Account(op); }
      if !r.stopped {
        fault := true;
        if !restoring { primary := true; }
        return false, r;
      }
      if !r.ok || !r.started || !r.exact {
        if !restoring { primary := true; }
        return false, r;
      }
      if op.GetA0? { a0 := r.byte; }
      if op.GetB0? { b0 := r.byte; }
      if op.GetC0? { c0 := r.byte; }
      ok := true;
    }

    /** A register must read as wanted under the mask. */
    method Control(op: Op, mask: bv8, want: bv8) returns (ok: bool)
      requires |ops| == starts && (op.GetA0? || op.GetB0? || op.GetC0?)
      modifies this`starts, this`ops, this`wrens, this`a0Dirty, this`b0Dirty, this`readyUnknown, this`fault, this`a0,
               this`b0, this`c0, this`primary, this`capped
      ensures |ops| == starts && old(starts) <= starts <= old(starts) + 1 && (ok ==> starts == old(starts) + 1)
      ensures old(OnlyReads()) ==> OnlyReads()
      ensures capped == (old(capped) || old(starts) >= Cap())
      ensures if ok then primary == old(primary) && fault == old(fault) else primary || restoring
      ensures old(primary) ==> primary
      ensures ok ==> Shows(if op.GetA0? then a0 else if op.GetB0? then b0 else c0, mask, want)
      ensures (!op.GetA0? ==> a0 == old(a0)) && (!op.GetB0? ==> b0 == old(b0)) && (!op.GetC0? ==> c0 == old(c0))
    {
      hide AllReads, Shows;
      var r: Reply;
      ok, r := Step(op);
      if !ok { return; }
      if op.GetC0? && !Shows(r.byte, 0x81, 0) { readyUnknown := true; }
      if !Shows(r.byte, mask, want) {
        if !restoring { primary := true; }
        return false;
      }
    }

    /** Polls until the chip is ready, at most eight times. */
    method Ready() returns (ok: bool)
      requires |ops| == starts && !restoring
      modifies this`starts, this`ops, this`wrens, this`a0Dirty, this`b0Dirty, this`readyUnknown, this`fault, this`a0,
               this`b0, this`c0, this`primary, this`capped
      ensures |ops| == starts && old(starts) <= starts <= old(starts) + POLLS && (ok ==> starts > old(starts))
      ensures old(OnlyReads()) ==> OnlyReads()
      ensures old(starts) + POLLS <= Cap() ==> capped == old(capped)
      ensures if ok then primary == old(primary) && fault == old(fault) && !readyUnknown else primary
    {
      for p := 0 to POLLS
        invariant |ops| == starts && old(starts) <= starts <= old(starts) + p
        invariant old(OnlyReads()) ==> OnlyReads()
        invariant primary == old(primary) && fault == old(fault)
        invariant old(starts) + POLLS <= Cap() ==> capped == old(capped)
      {
        var late: bool := *;
        if late {
          primary := true;
          return false;
        }
        var r: Reply;
        ok, r := Step(GetC0);
        if !ok { return; }
        var v := r.byte;
        if v & 0x81 == 0 { readyUnknown := false; }
        if v & 0x80 != 0 {
          primary := true;
          return false;
        }
        if v & 1 == 0 {
          BothClear(v);
          if v & 0x0e != 0 || (b0 == 0x10 && v & 0x70 != 0) {
            primary := true;
            return false;
          }
          return true;
        }
      }
      primary := true;
      ok := false;
    }

    /** Loads a page, waits, and transfers it; between 5 and 12 transfers. */
    method ReadPage() returns (ok: bool, page: seq<Byte>)
      requires |ops| == starts && !restoring
      modifies this`starts, this`ops, this`wrens, this`a0Dirty, this`b0Dirty, this`readyUnknown, this`fault, this`a0,
               this`b0, this`c0, this`primary, this`capped, this`seen
      ensures |ops| == starts && old(starts) <= starts <= old(starts) + 12 && (ok ==> starts >= old(starts) + 5)
      ensures old(OnlyReads()) ==> OnlyReads()
      ensures old(starts) + 12 <= Cap() ==> capped == old(capped)
      ensures if ok then primary == old(primary) && fault == old(fault) && |page| >= PAGE
        && seen == old(seen) + [page[..PAGE]]
              else primary && seen == old(seen)
    {
      var r: Reply;
      page := [];
      ok, r := Step(LoadCache);
      if !ok { return; }
      ok := Ready();
      if !ok { return; }
      ok, r := Step(ReadMain);
      if !ok { return; }
      ok := Control(GetC0, 0xff, 0);
      if !ok { return; }
      ok := Control(GetB0, 0xff, 0x10);
      if !ok { return; }
      var late: bool := *;
      if late || |r.page| < PAGE {
        primary := true;
        return false, page;
      }
      page := r.page;
      seen := seen + [page[..PAGE]];
    }

    method Fail()
      modifies this`primary
      ensures primary
    {
      primary := true;
    }

    /** The DATA page, then the COMMIT page: each must be the built one and validate as it. */
    method PairRead(data: seq<Byte>, commit: seq<Byte>) returns (ok: bool)
      requires |ops| == starts && !restoring && |data| == PAGE && |commit| == PAGE
      modifies this`starts, this`ops, this`wrens, this`a0Dirty, this`b0Dirty, this`readyUnknown, this`fault, this`a0,
               this`b0, this`c0, this`primary, this`capped, this`seen, this`dataValid, this`commitValid
      ensures |ops| == starts && old(starts) <= starts <= old(starts) + 24 && (ok ==> starts >= old(starts) + 10)
      ensures old(OnlyReads()) ==> OnlyReads()
      ensures old(starts) + 24 <= Cap() ==> capped == old(capped)
      ensures if ok then primary == old(primary) && fault == old(fault) && dataValid && commitValid
        && seen == old(seen) + [data, commit]
              else primary
      ensures ok ==>
        Validate(hash, data, dataAt).Valid? && MatchCommit(hash, commit, commitAt, name, data, dataAt).Matched?
    {
      hide Validate, MatchCommit;
      var p: seq<Byte>;
      ok, p := ReadPage();
      if !ok { return; }
      if p[..PAGE] != data || !Validate(hash, p[..PAGE], dataAt).Valid? {
        Fail();
        return false;
      }
      dataValid := true;
      ok, p := ReadPage();
      if !ok { return; }
      if p[..PAGE] != commit || !MatchCommit(hash, p[..PAGE], commitAt, name, data, dataAt).Matched? {
        Fail();
        return false;
      }
      commitValid := true;
    }

    /** Three identifications and three registers. */
    method Preflight() returns (ok: bool)
      requires |ops| == starts && !restoring
      modifies this`starts, this`ops, this`wrens, this`a0Dirty, this`b0Dirty, this`readyUnknown, this`fault, this`a0,
               this`b0, this`c0, this`primary, this`capped
      ensures |ops| == starts && old(starts) <= starts <= old(starts) + 6 && (ok ==> starts == old(starts) + 6)
      ensures old(OnlyReads()) ==> OnlyReads()
      ensures old(starts) + 6 <= Cap() ==> capped == old(capped)
      ensures if ok then primary == old(primary) && fault == old(fault) else primary
    {
      for i := 0 to 3
        invariant |ops| == starts == old(starts) + i
        invariant old(OnlyReads()) ==> OnlyReads()
        invariant primary == old(primary) && fault == old(fault)
        invariant old(starts) + 6 <= Cap() ==> capped == old(capped)
      {
        var r: Reply;
        ok, r := Step(Id);
        if !ok { return; }
        if !r.id {
          Fail();
          return false;
        }
      }
      ok := Control(GetC0, 0xff, 0);
      if !ok { return; }
      ok := Control(GetA0, 0xff, 0x7c);
      if !ok { return; }
      ok := Control(GetB0, 0xff, 0x10);
    }

    method DataRun(data: seq<Byte>, commit: seq<Byte>) returns (ok: bool)
      requires Unstarted() && |data| == PAGE && |commit| == PAGE
      modifies this`starts, this`ops, this`wrens, this`a0Dirty, this`b0Dirty, this`readyUnknown, this`fault, this`a0,
               this`b0, this`c0, this`primary, this`capped, this`seen, this`dataValid, this`commitValid,
               this`patternValid
      ensures OnlyReads() && starts <= 42 && !capped && (ok ==> starts >= 21)
      ensures if ok then !primary && !fault && dataValid && commitValid && |seen| == 3 && seen[1..] == [data, commit]
              else primary
      ensures ok ==> |pattern| == PAGE && seen[0] == pattern
      ensures ok ==>
        Validate(hash, data, dataAt).Valid? && MatchCommit(hash, commit, commitAt, name, data, dataAt).Matched?
    {
      hide Validate, MatchCommit;
      ok := Preflight();
      if !ok { return; }
      var p: seq<Byte>;
      ok, p := ReadPage();
      if !ok { return; }
      if p[..PAGE] != pattern {
        Fail();
        return false;
      }
      patternValid := true;
      ok := PairRead(data, commit);
    }

    /** Turns a setting back and sees that it took. */
    method PutBack(op: Op, see: Op, mask: bv8, want: bv8) returns (ok: bool)
      requires |ops| == starts && restoring && (see.GetA0? || see.GetB0? || see.GetC0?)
      modifies this`starts, this`ops, this`wrens, this`a0Dirty, this`b0Dirty, this`readyUnknown, this`fault, this`a0,
               this`b0, this`c0, this`primary, this`capped
      ensures |ops| == starts && old(starts) <= starts <= old(starts) + 2
      ensures old(starts) + 2 <= Cap() ==> capped == old(capped)
      ensures ok ==> primary == old(primary) && fault == old(fault)
      ensures old(primary) ==> primary
    {
      var r: Reply;
      ok, r := Step(op);
      if !ok { return; }
      ok := Control(see, mask, want);
    }

    /** Disarms a latch this run armed, and puts back the settings it touched. */
    method Undo() returns (ok: bool)
      requires |ops| == starts && restoring
      modifies this`starts, this`ops, this`wrens, this`a0Dirty, this`b0Dirty, this`readyUnknown, this`fault, this`a0,
               this`b0, this`c0, this`primary, this`capped
      ensures |ops| == starts && old(starts) <= starts <= old(starts) + 6
      ensures old(starts) + 6 <= Cap() ==> capped == old(capped)
      ensures ok ==> primary == old(primary) && fault == old(fault)
      ensures old(primary) ==> primary
      ensures old(OnlyReads()) ==>
        && OnlyReads() && starts == old(starts) && fault == old(fault)
        && primary == old(primary)
    {
      ok := true;
      if c0 & 2 != 0 {
        if wrens == 0 { return false; }
        ok := PutBack(WriteDisable, GetC0, 0x83, 0);
      }
      if ok && a0Dirty { ok := PutBack(Lock, GetA0, 0xff, 0x7c); }
      if ok && b0Dirty { ok := PutBack(RawOn, GetB0, 0xff, 0x10); }
    }

    /** What every register must show at rest. */
    method SeeRest() returns (ok: bool)
      requires |ops| == starts && restoring
      modifies this`starts, this`ops, this`wrens, this`a0Dirty, this`b0Dirty, this`readyUnknown, this`fault, this`a0,
               this`b0, this`c0, this`primary, this`capped
      ensures |ops| == starts && old(starts) <= starts <= old(starts) + 3
        && (ok ==> starts == old(starts) + 3 && AtRest(a0, b0, c0))
      ensures old(starts) + 3 <= Cap() ==> capped == old(capped)
      ensures ok ==> primary == old(primary) && fault == old(fault)
      ensures old(primary) ==> primary
      ensures old(OnlyReads()) ==> OnlyReads()
    {
      ok := Control(GetA0, 0xff, 0x7c);
      if !ok { return; }
      ok := Control(GetB0, 0xff, 0x10);
      if !ok { return; }
      ok := Control(GetC0, 0x83, 0);
    }

    /** Restoration, within ten transfers; after a run of reads only it is at most four more reads. */
    method Restore()
      requires |ops| == starts && starts <= MAX_STARTS - 24 && !capped && !restoring && !restored && !restoreFailed
      modifies this`starts, this`ops, this`wrens, this`a0Dirty, this`b0Dirty, this`readyUnknown, this`fault, this`a0,
               this`b0, this`c0, this`primary, this`capped, this`restoring, this`restored, this`restoreFailed
      ensures |ops| == starts && old(starts) <= starts <= old(starts) + 10 && !capped
      ensures restored ==> AtRest(a0, b0, c0) && !a0Dirty && !b0Dirty
      ensures old(OnlyReads()) ==> OnlyReads() && starts <= old(starts) + 4 && (restored ==> starts == old(starts) + 4)
      ensures old(primary) ==> primary
    {
      var safe: bool := *;
      if !safe || readyUnknown {
        fault := true;
        return;
      }
      var dirty := a0Dirty || b0Dirty || wrens != 0;
      restoring := true;
      var ok := Control(GetC0, 0x81, 0);
      if ok { ok := Undo(); }
      if ok { ok := SeeRest(); }
      restoreFailed := !ok;
      if ok {
        a0Dirty, b0Dirty, restored := false, false, true;
        if c0 & 0x0c != 0 { primary := true; }
      } else if dirty {
        fault := true;
      }
    }

    /** The whole run. */
    method Run() returns (outcome: Outcome)
      requires Unstarted()
      modifies this
      ensures OnlyReads() && starts <= 46 && !capped
      ensures outcome.Verified? ==> 25 <= starts && restored && AtRest(a0, b0, c0) && !fault && dataValid && commitValid
      ensures outcome.Verified? ==>
        |seen| == 3 && seen[0] == pattern && BuildData(hash, dataAt, Payload()) == Built(seen[1])
                                    && BuildCommit(hash, commitAt, name, seen[1], dataAt) == Built(seen[2])
    {
      hide BuildData, BuildCommit, Validate, MatchCommit;
      var data := BuildData(hash, dataAt, Payload());
      if data.Built? { DataLength(hash, dataAt, Payload()); }
      var commit := if data.Built? then BuildCommit(hash, commitAt, name, data.page, dataAt) else NotBuilt;
      if commit.Built? { CommitLength(hash, commitAt, name, data.page, dataAt); }
      if !commit.Built? {
        Fail();
      } else {
        var done := DataRun(data.page, commit.page);
      }
      if starts != 0 { Restore(); }
      var late: bool := *;
      if late { Fail(); }
      outcome := if fault || restoreFailed then RestoreError else if primary then Failed
                 else if dataValid && commitValid && restored then Verified else CleanupError;
    }
  }

  lemma BothClear(v: bv8)
    requires v & 0x80 == 0 && v & 1 == 0
    ensures v & 0x81 == 0
  {
  }

  lemma DataLength(h: Provider, b: Binding, payload: seq<Byte>)
    requires BuildData(h, b, payload).Built?
    ensures |BuildData(h, b, payload).page| == PAGE
  {
    IdentityLength(b.device);
    IdentityLength(b.volume);
    SealPieces(h, b, payload, BuildData(h, b, payload).page);
  }

  lemma CommitLength(h: Provider, c: Binding, name: seq<Byte>, data: seq<Byte>, d: Binding)
    requires BuildCommit(h, c, name, data, d).Built?
    ensures |BuildCommit(h, c, name, data, d).page| == PAGE
  {
    hide Validate, Seal;
    PairLengths(c, d);
    IdentityLength(name);
    ViewIs(h, data, d);
    SealPieces(h, c, CommitPayload(name, d, data[SUMMED..2176]), BuildCommit(h, c, name, data, d).page);
  }
}
