/**
 The fixed two-page write experiment: a long program of NAND transfers with a fixed budget of STARTs,
 acknowledgements of an observer between its mutations, and a restoration that is always attempted.
 The chip, the observer, the clock and the hash provider answer anything at any time.
 */
module WriteRate {
  const MAX_STARTS: nat := 1707
  const RESTORE_STARTS: nat := 8
  const MAX_EVENTS: nat := 32

  /** Whole pages, compared only for equality. */
  type Page = int

  datatype Op = ReadId | GetC0 | GetA0 | GetB0 | RawOff | RawOn | Unlock | Lock
              | LoadCache | ReadRaw | ReadMain | WriteEnable | WriteDisable | Load(s: nat) | Exec(s: nat)

  datatype Milestone =
    Preflight | PreimageRows | OldValid | BeforeWren | BeforeLoad | BeforeExec | ProgramVerified | Preserved

  /** The first thing that went wrong in the data phase; `NotRun` is none. */
  datatype Failure = NotRun | Refused | BindingError | IdError | StateError | PreimageError | OldObjectError
                   | NotBlank | HashError | ReadbackError | ProgramError | TransferError | StopError | ReadyTimeout
                   | ObserverError | DeadlineError | RateError

  datatype Outcome = Verified | RestoreError | CleanupError | Failed(why: Failure)

  // ----- What happened, as one list --------------------------------------------------------------------

  /** A page read in full, a transfer that can change the chip and was started, an acknowledged event. */
  datatype Mark = Read(row: nat, raw: bool, page: Page) | Did(op: Op, row: nat) | Acked(e: Milestone)

  /** What is fixed before the run: the pinned table of 64 raw pages, the three pages of the old object,
      the two patterns and the erased page. */
  datatype Plan = Plan(table: seq<Page>, stored: seq<Page>, pattern: seq<Page>)

  predicate Fixed(plan: Plan) {
    |plan.table| == 64 && |plan.stored| == 3 && |plan.pattern| == 2
  }

  /** How far a list of marks got, judged from the marks alone. */
  datatype Progress = Progress(
    rows: nat,              // table rows read twice in order, both times as pinned
    half: bool,             // and the next one once
    held: nat,              // rows of the old object read back before any mutation
    wrens: nat, loads: nat, execs: nat,
    ackWren: nat, ackLoad: nat, ackExec: nat,
    copies: nat,            // read-backs of the page last executed that equal its pattern
    verified: nat,          // pages read back twice
    post: nat,              // rows of the old object read back after both pages
    marker: bool,           // the raw first page, after all that
    a0: bool, b0: bool,     // a transfer that sets a register was started
    events: nat)

  function Advance(plan: Plan, p: Progress, m: Mark): Progress
    requires Fixed(plan)
  {
    match m
    case Read(row, raw, page) =>
      if raw then
        if p.rows < 64 then
          if row == p.rows && page == plan.table[row] then
            (if p.half then p.(rows := p.rows + 1, half := false) else p.(half := true))
          else p.(half := false)
        else p.(marker := p.marker || (row == 0 && p.post == 3))
      else if p.held < 3 then
        if p.rows == 64 && row == p.held && page == plan.stored[row] then p.(held := p.held + 1) else p
      else if p.verified < p.execs <= 2 then
        if row == 3 + p.verified && page == plan.pattern[p.verified] then
          (if p.copies == 1 then p.(copies := 0, verified := p.verified + 1) else p.(copies := 1))
        else p
      else if p.verified == 2 && p.post < 3 && row == p.post && page == plan.stored[row] then p.(post := p.post + 1)
      else p
    case Did(op, row) =>
      (match op
       case WriteEnable => p.(wrens := p.wrens + 1)
       case Load(_) => p.(loads := p.loads + 1)
       case Exec(_) => p.(execs := p.execs + 1)
       case Unlock => p.(a0 := true)
       case Lock => p.(a0 := true)
       case RawOff => p.(b0 := true)
       case RawOn => p.(b0 := true)
       case _ => p)
    case Acked(e) =>
      p.(events := p.events + 1,
         ackWren := if e.BeforeWren? then p.ackWren + 1 else p.ackWren,
         ackLoad := if e.BeforeLoad? then p.ackLoad + 1 else p.ackLoad,
         ackExec := if e.BeforeExec? then p.ackExec + 1 else p.ackExec)
  }

  const NONE := Progress(0, false, 0, 0, 0, 0, 0, 0, 0, 0, 0, 0, false, false, false, 0)

  function Scan(plan: Plan, log: seq<Mark>): Progress
    requires Fixed(plan)
  {
    if log == [] then NONE else Advance(plan, Scan(plan, log[..|log| - 1]), log[|log| - 1])
  }

  /** May a mutation follow what happened so far? The page is one of the two leased rows, in order, each
      step once and after its own acknowledgement, and never before the whole table was read twice as
      pinned and the old object was read back. */
  predicate Allowed(p: Progress, m: Mark) {
    match m
    case Did(op, row) =>
      (match op
       case WriteEnable => p.rows == 64 && p.held == 3 && p.wrens <= 1 && row == 3 + p.wrens && p.ackWren == p.wrens + 1
                           && p.execs == p.wrens
       case Load(s) => p.rows == 64 && p.held == 3 && s == p.loads <= 1 && row == 3 + s && p.ackLoad == s + 1
         && p.wrens == s + 1
       case Exec(s) => p.rows == 64 && p.held == 3 && s == p.execs <= 1 && row == 3 + s && p.ackExec == s + 1
         && p.loads == s + 1
                       && p.verified == s
       case _ => true)
    case _ => true
  }

  /** Every mutation of the list was allowed where it stands. */
  predicate Ordered(plan: Plan, log: seq<Mark>)
    requires Fixed(plan)
  {
    log == [] ||
    (Ordered(plan, log[..|log| - 1]) && Allowed(Scan(plan, log[..|log| - 1]), log[|log| - 1]))
  }

  /** What `Ordered` says of one mutation in the middle of a run. */
  lemma {:induction false} OrderedAt(plan: Plan, log: seq<Mark>, k: nat)
    requires Fixed(plan) && Ordered(plan, log) && k < |log|
    ensures Allowed(Scan(plan, log[..k]), log[k])
    decreases |log|
  {
    if k == |log| - 1 {
    } else {
      OrderedAt(plan, log[..|log| - 1], k);
      assert log[..|log| - 1][..k] == log[..k];
    }
  }

  predicate IsExec(m: Mark) { m.Did? && m.op.Exec? }

  /** Enabling, loading or executing a page. */
  predicate Touches(m: Mark) { m.Did? && (m.op.WriteEnable? || m.op.Load? || m.op.Exec?) }

  lemma HalfStep(plan: Plan, p: Progress, m: Mark)
    requires Fixed(plan)
    ensures var q := Advance(plan, p, m);
      q.half ==> q.rows == p.rows && (p.half || (p.rows < 64 && m == Read(p.rows, true, plan.table[p.rows])))
  {
  }

  lemma RowStep(plan: Plan, p: Progress, m: Mark)
    requires Fixed(plan)
    ensures var q := Advance(plan, p, m);
      q.rows == p.rows || (q.rows == p.rows + 1 && p.half && p.rows < 64 && m == Read(p.rows, true, plan.table[p.rows]))
  {
  }

  lemma ExecStep(plan: Plan, p: Progress, m: Mark)
    requires Fixed(plan)
    ensures Advance(plan, p, m).execs == p.execs + (if IsExec(m) then 1 else 0)
  {
  }

  lemma AckStep(plan: Plan, p: Progress, m: Mark)
    requires Fixed(plan)
    ensures Advance(plan, p, m).ackExec == p.ackExec + (if m == Acked(BeforeExec) then 1 else 0)
  {
  }

  /** A half-read row was read once, as pinned. */
  lemma {:induction false} HalfWasRead(plan: Plan, log: seq<Mark>) returns (i: nat)
    requires Fixed(plan) && Scan(plan, log).half
    ensures i < |log| && Scan(plan, log).rows < 64
    ensures log[i] == Read(Scan(plan, log).rows, true, plan.table[Scan(plan, log).rows])
  {
    hide Advance;
    var before := log[..|log| - 1];
    HalfStep(plan, Scan(plan, before), log[|log| - 1]);
    if Scan(plan, before).half {
      i := HalfWasRead(plan, before);
    } else {
      i := |log| - 1;
    }
  }

  /** A confirmed row was read twice, both times as pinned. */
  lemma {:induction false} RowWasReadTwice(plan: Plan, log: seq<Mark>, r: nat) returns (i: nat, j: nat)
    requires Fixed(plan) && r < Scan(plan, log).rows
    ensures i < j < |log| && r < 64 && log[i] == Read(r, true, plan.table[r]) && log[j] == log[i]
  {
    hide Advance;
    var before := log[..|log| - 1];
    RowStep(plan, Scan(plan, before), log[|log| - 1]);
    if r < Scan(plan, before).rows {
      i, j := RowWasReadTwice(plan, before, r);
    } else {
      i := HalfWasRead(plan, before);
      j := |log| - 1;
    }
  }

  /** Before any page is enabled, loaded or executed, all 64 rows were read twice as pinned. */
  lemma MutationsWait(plan: Plan, log: seq<Mark>, k: nat, r: nat) returns (i: nat, j: nat)
    requires Fixed(plan) && Ordered(plan, log) && k < |log| && Touches(log[k]) && r < 64
    ensures i < j < k && log[i] == Read(r, true, plan.table[r]) && log[j] == log[i]
    ensures Scan(plan, log[..k]).held == 3
  {
    OrderedAt(plan, log, k);
    i, j := RowWasReadTwice(plan, log[..k], r);
  }

  lemma {:induction false} ExecsGrow(plan: Plan, log: seq<Mark>, k: nat)
    requires Fixed(plan) && k < |log| && IsExec(log[k])
    ensures Scan(plan, log).execs > Scan(plan, log[..k]).execs
    decreases |log|
  {
    hide Advance;
    var before := log[..|log| - 1];
    ExecStep(plan, Scan(plan, before), log[|log| - 1]);
    if k < |log| - 1 {
      ExecsGrow(plan, before, k);
      assert before[..k] == log[..k];
    }
  }

  /** Each page is executed at most once, and in row order. */
  lemma EachPageOnce(plan: Plan, log: seq<Mark>, i: nat, j: nat)
    requires Fixed(plan) && Ordered(plan, log) && i < j < |log| && IsExec(log[i]) && IsExec(log[j])
    ensures log[i] == Did(Exec(0), 3) && log[j] == Did(Exec(1), 4)
  {
    OrderedAt(plan, log, i);
    OrderedAt(plan, log, j);
    assert log[..j][..i] == log[..i];
    ExecsGrow(plan, log[..j], i);
  }

  /** While an acknowledgement is unused, the last one came after the last execution. */
  lemma {:induction false} UnusedAck(plan: Plan, log: seq<Mark>) returns (i: nat)
    requires Fixed(plan) && Ordered(plan, log) && Scan(plan, log).ackExec > Scan(plan, log).execs
    ensures i < |log| && log[i] == Acked(BeforeExec) && forall j :: i < j < |log| ==> !IsExec(log[j])
  {
    hide Advance;
    var before := log[..|log| - 1];
    var m := log[|log| - 1];
    ExecStep(plan, Scan(plan, before), m);
    AckStep(plan, Scan(plan, before), m);
    if m == Acked(BeforeExec) {
      i := |log| - 1;
    } else {
      i := UnusedAck(plan, before);
    }
  }

  /** Every execution follows its own acknowledged BEFORE_EXEC. */
  lemma ExecFollowsItsAck(plan: Plan, log: seq<Mark>, k: nat) returns (i: nat)
    requires Fixed(plan) && Ordered(plan, log) && k < |log| && IsExec(log[k])
    ensures i < k && log[i] == Acked(BeforeExec) && forall j :: i < j < k ==> !IsExec(log[j])
  {
    hide Advance, Scan, Ordered;
    OrderedAt(plan, log, k);
    OrderedPrefix(plan, log, k);
    i := UnusedAck(plan, log[..k]);
  }

  lemma {:induction false} OrderedPrefix(plan: Plan, log: seq<Mark>, k: nat)
    requires Fixed(plan) && Ordered(plan, log) && k <= |log|
    ensures Ordered(plan, log[..k])
    decreases |log|
  {
    if k == |log| {
      assert log[..k] == log;
    } else {
      OrderedPrefix(plan, log[..|log| - 1], k);
      assert log[..|log| - 1][..k] == log[..k];
    }
  }

  // ----- Registers and counters -------------------------------------------------------------------------

  datatype Counts = Counts(starts: nat, wren: nat, wrdi: nat, loads: nat, executes: nat)

  datatype Regs = Regs(a0Dirty: bool, b0Dirty: bool, a0Valid: bool, a0: bv8, b0Valid: bool, b0: bv8,
                       c0Valid: bool, c0: bv8, readyUnknown: bool, stopped: bool, defaultValid: bool, fault: bool)

  /** An answer of the transfer function; `exact` says all bytes went out and came in. */
  datatype Reply = Reply(ok: bool, started: bool, stopped: bool, defaultValid: bool, exact: bool, byte: bv8, id: bool,
    page: Page)

  function Counted(n: Counts, op: Op, started: bool): Counts {
    n.(starts := n.starts + (if started then 1 else 0),
       wren := n.wren + (if started && op.WriteEnable? then 1 else 0),
       wrdi := n.wrdi + (if started && op.WriteDisable? then 1 else 0),
       loads := n.loads + (if started && op.Load? then 1 else 0),
       executes := n.executes + (if started && op.Exec? then 1 else 0))
  }

  predicate Mutates(op: Op) {
    op.RawOff? || op.RawOn? || op.Unlock? || op.Lock? || op.WriteEnable? || op.WriteDisable? || op.Load? || op.Exec?
  }

  predicate Good(r: Reply) { r.ok && r.started && r.stopped && r.defaultValid && r.exact }

  /** The registers after one answer, whatever it was. */
  function After(g: Regs, op: Op, r: Reply): Regs {
    var b0 := r.started && (op.RawOff? || op.RawOn?);
    var a0 := r.started && (op.Unlock? || op.Lock?);
    var c0 := r.started && (op.WriteEnable? || op.WriteDisable? || op.Exec?);
    var good := Good(r);
    Regs(g.a0Dirty || a0, g.b0Dirty || b0,
         (g.a0Valid && !a0) || (good && op.GetA0?), if good && op.GetA0? then r.byte else g.a0,
         (g.b0Valid && !b0) || (good && op.GetB0?), if good && op.GetB0? then r.byte else g.b0,
         (g.c0Valid && !c0) || (good && op.GetC0?), if good && op.GetC0? then r.byte else g.c0,
         g.readyUnknown || (r.started && (op.LoadCache? || op.Exec?)),
         r.stopped, r.defaultValid, g.fault || !r.stopped || !r.defaultValid)
  }

  predicate Tallied(p: Progress, n: Counts, g: Regs, events: nat) {
    && p.wrens == n.wren && p.loads == n.loads && p.execs == n.executes && p.events <= events
    && (p.a0 ==> g.a0Dirty) && (p.b0 ==> g.b0Dirty) && (p.a0 || p.b0 ==> n.starts > 0) && n.wren <= n.starts
  }

  /** Progress after one transfer. */
  function Moved(plan: Plan, p: Progress, op: Op, row: nat, started: bool): Progress
    requires Fixed(plan)
  {
    if started && Mutates(op) then Advance(plan, p, Did(op, row)) else p
  }

  lemma TalliedAfter(plan: Plan, p: Progress, n: Counts, g: Regs, events: nat, op: Op, row: nat, r: Reply)
    requires Fixed(plan) && Tallied(p, n, g, events)
    ensures Tallied(Moved(plan, p, op, row, r.started), Counted(n, op, r.started), After(g, op, r), events)
  {
  }

  /** A status byte that shows the chip busy or mid-operation makes its readiness unknown. */
  function Looked(g: Regs, op: Op, r: Reply): Regs {
    if Good(r) && op.GetC0? && r.byte & 0x81 != 0 then g.(readyUnknown := true) else g
  }

  /** Only transfers that cannot change the chip were started, between `lo` and `hi` of them. */
  predicate Spent(n: Counts, m: Counts, lo: nat, hi: nat) {
    m == n.(starts := m.starts) && n.starts + lo <= m.starts <= n.starts + hi
  }

  /** The same where mutations may be among them. */
  predicate Used(n: Counts, m: Counts, lo: nat, hi: nat) {
    n.starts + lo <= m.starts <= n.starts + hi && m.wrdi == n.wrdi
  }

  lemma UsedOne(n: Counts, op: Op, started: bool)
    requires !op.WriteDisable?
    ensures Used(n, Counted(n, op, started), if started then 1 else 0, 1)
  {
  }

  lemma SpentOne(n: Counts, op: Op, started: bool)
    requires !Mutates(op)
    ensures Spent(n, Counted(n, op, started), if started then 1 else 0, 1)
  {
  }

  lemma MaskedClear(v: bv8, mask: bv8, want: bv8)
    requires v & mask == want
    ensures mask & 0x81 == 0x81 && want & 0x81 == 0 ==> v & 0x81 == 0
  {
    assert mask & 0x81 == 0x81 && want & 0x81 == 0 ==> (v & mask) & 0x81 == v & 0x81;
  }

  // ----- What the registers show ------------------------------------------------------------------------

  /** A control read leaves everything but the register it reads. */
  predicate Held(g: Regs, h: Regs, op: Op) {
    && h.a0Dirty == g.a0Dirty && h.b0Dirty == g.b0Dirty && (g.fault ==> h.fault)
    && (!op.GetA0? ==> h.a0 == g.a0 && h.a0Valid == g.a0Valid)
    && (!op.GetB0? ==> h.b0 == g.b0 && h.b0Valid == g.b0Valid)
    && (!op.GetC0? ==> h.c0 == g.c0 && h.c0Valid == g.c0Valid)
  }

  /** A control read that matched. */
  predicate Showed(g: Regs, h: Regs, op: Op, mask: bv8, want: bv8) {
    && h.stopped && h.defaultValid && h.fault == g.fault && h.readyUnknown == g.readyUnknown
    && (op.GetA0? ==> h.a0Valid && h.a0 & mask == want)
    && (op.GetB0? ==> h.b0Valid && h.b0 & mask == want)
    && (op.GetC0? ==> h.c0Valid && h.c0 & mask == want)
  }

  lemma HeldAfter(g: Regs, op: Op, r: Reply, called: bool)
    requires op.GetA0? || op.GetB0? || op.GetC0?
    ensures Held(g, if called then Looked(After(g, op, r), op, r) else g, op)
  {
  }

  lemma LookedClear(g: Regs, op: Op, r: Reply)
    requires op.GetC0? ==> r.byte & 0x81 == 0
    ensures Looked(g, op, r) == g
  {
  }

  lemma AfterLook(g: Regs, op: Op, r: Reply)
    requires (op.GetA0? || op.GetB0? || op.GetC0?) && Good(r)
    ensures var h := After(g, op, r);
      && h.stopped && h.defaultValid && h.fault == g.fault && h.readyUnknown == g.readyUnknown
      && (op.GetA0? ==> h.a0Valid && h.a0 == r.byte)
      && (op.GetB0? ==> h.b0Valid && h.b0 == r.byte)
      && (op.GetC0? ==> h.c0Valid && h.c0 == r.byte)
  {
  }

  lemma ShowedAfter(g: Regs, op: Op, r: Reply, mask: bv8, want: bv8)
    requires (op.GetA0? || op.GetB0? || op.GetC0?) && Good(r) && r.byte & mask == want
    requires op.GetC0? ==> r.byte & 0x81 == 0
    ensures Showed(g, Looked(After(g, op, r), op, r), op, mask, want)
  {
    hide Looked, After;
    LookedClear(After(g, op, r), op, r);
    AfterLook(g, op, r);
  }

  /** A setting transfer forgets what was known of its register and nothing else. */
  predicate Changed(g: Regs, h: Regs, op: Op) {
    && (g.fault ==> h.fault)
    && (g.a0Dirty ==> h.a0Dirty) && (!op.Lock? ==> h.a0Dirty == g.a0Dirty && h.a0 == g.a0 && h.a0Valid == g.a0Valid)
    && (g.b0Dirty ==> h.b0Dirty) && (!op.RawOn? ==> h.b0Dirty == g.b0Dirty && h.b0 == g.b0 && h.b0Valid == g.b0Valid)
  }

  lemma ChangedAfter(g: Regs, op: Op, r: Reply, called: bool)
    requires op.Lock? || op.RawOn? || op.WriteDisable?
    ensures Changed(g, if called then After(g, op, r) else g, op)
  {
  }

  lemma SetQuietly(g: Regs, op: Op, r: Reply)
    requires (op.Lock? || op.RawOn? || op.WriteDisable?) && Good(r)
    ensures After(g, op, r).readyUnknown == g.readyUnknown && After(g, op, r).fault == g.fault
  {
  }

  lemma KeptStatus(g: Regs, op: Op, r: Reply)
    requires Good(r)
    ensures op.GetC0? ==> After(g, op, r).c0Valid && After(g, op, r).c0 == r.byte
  {
  }

  lemma ClearBits(v: bv8)
    requires v & 0x80 == 0 && v & 0x01 == 0 && v & 0x0e == 0
    ensures v & 0x8f == 0 && v & 0x81 == 0
  {
  }

  class Experiment {
    const plan: Plan
    var count: Counts
    var regs: Regs
    var events: nat
    var completed: nat
    var primary: Failure
    var restoring: bool
    var restoreFailed: bool
    var restored: bool
    var preimageRows: nat
    var oldPre: nat
    var oldPost: nat
    var verified: nat
    var markerPost: bool
    var wholeFault: bool
    var wholeActive: bool
    ghost var log: seq<Mark>
    /** Some call was refused for want of budget. */
    ghost var capped: bool
    /** How often the hash of the whole block was begun, and given back. */
    ghost var wholeBegins: nat
    ghost var wholeAborts: nat

    constructor (plan: Plan)
      requires Fixed(plan)
      ensures this.plan == plan && Unstarted()
    {
      this.plan := plan;
      count, events, completed, primary := Counts(0, 0, 0, 0, 0), 0, 0, NotRun;
      regs := Regs(false, false, false, 0, false, 0, false, 0, false, true, true, false);
      restoring, restoreFailed, restored, wholeFault, markerPost := false, false, false, false, false;
      preimageRows, oldPre, oldPost, verified := 0, 0, 0, 0;
      log, capped := [], false;
      wholeActive, wholeBegins, wholeAborts := false, 0, 0;
    }

    /** Everything cleared, as the run begins. */
    ghost predicate Unstarted()
      reads this
    {
      && Fixed(plan) && log == [] && count == Counts(0, 0, 0, 0, 0) && events == 0 && completed == 0 && verified == 0
      && preimageRows == 0 && oldPre == 0 && oldPost == 0 && !markerPost && !capped && !restoring && !restored
      && !restoreFailed && !wholeFault && primary == NotRun && !regs.a0Dirty && !regs.b0Dirty && !regs.fault
        && Unhashed()
    }

    ghost predicate Unhashed()
      reads this
    {
      !wholeActive && wholeBegins == 0 && wholeAborts == 0
    }

    /** At most one hash was begun, and it is given back or still held. */
    ghost predicate Hashing()
      reads this
    {
      wholeBegins == wholeAborts + (if wholeActive then 1 else 0) && wholeBegins <= 1
    }

    ghost predicate Valid()
      reads this
    {
      Fixed(plan) && Ordered(plan, log) && Agrees()
    }

    /** The counters the program keeps are the ones the marks give. */
    ghost predicate Agrees()
      requires Fixed(plan)
      reads this
    {
      Tallied(Scan(plan, log), count, regs, events)
    }

    ghost function Now(): Progress
      requires Fixed(plan)
      reads this
    {
      Scan(plan, log)
    }

    ghost method Note(m: Mark)
      requires Fixed(plan) && Ordered(plan, log) && Allowed(Now(), m)
      modifies this`log
      ensures log == old(log) + [m] && Ordered(plan, log) && Now() == Advance(plan, old(Now()), m)
    {
      log := log + [m];
      assert log[..|log| - 1] == old(log);
    }

    method Fail(o: Failure)
      modifies this`primary
      ensures primary == if old(primary) == NotRun then o else old(primary)
    {
      if primary == NotRun { primary := o; }
    }

    /** Deadlines and the observer: any of them may end the data phase here. */
    method Check() returns (ok: bool)
      modifies this`primary
      ensures ok ==> primary == old(primary)
      ensures !ok ==>
        primary != NotRun && (primary == old(primary) || primary == DeadlineError || primary == ObserverError)
    {
      var late: bool := *;
      var refused: bool := *;
      if late {
        Fail(DeadlineError);
        return false;
      }
      if refused {
        Fail(ObserverError);
        return false;
      }
      return true;
    }

    /** One milestone: counted first, then handed to the observer, whose answer acknowledges it. */
    method Announce(e: Milestone) returns (ok: bool)
      requires Valid()
      modifies this`primary, this`events, this`log, this`capped
      ensures Valid() && old(events) <= events <= old(events) + 1
      ensures ok ==>
        && primary == old(primary) && events == old(events) + 1
        && Now() == Advance(plan, old(Now()), Acked(e))
      ensures ok ==> !regs.readyUnknown
      ensures old(events) < MAX_EVENTS ==> capped == old(capped)
      ensures !ok ==> primary != NotRun
    {
      var safe: bool := *;
      if !safe || regs.readyUnknown {
        Fail(StopError);
        return false;
      }
      if events >= MAX_EVENTS {
        capped := true;
        Fail(Refused);
        return false;
      }
      ok := Check();
      if !ok { return; }
      events := events + 1;
      var acknowledged: bool := *;
      if !acknowledged {
        Fail(ObserverError);
        return false;
      }
      Note(Acked(e));
      ok := Check();
    }

    function Cap(): nat
      reads this`restoring
    {
      if restoring then MAX_STARTS else MAX_STARTS - RESTORE_STARTS
    }

    /** The chip answers; what it says it started is counted, and a mutation goes on record. */
    method Transfer(op: Op, row: nat) returns (r: Reply)
      requires Valid() && (Mutates(op) ==> Allowed(Now(), Did(op, row)))
      modifies this`count, this`regs, this`log
      ensures Valid() && Now() == Moved(plan, old(Now()), op, row, r.started)
      ensures count == Counted(old(count), op, r.started) && regs == After(old(regs), op, r)
    {
      hide Counted, After, Advance, Allowed, Tallied;
      ghost var before := Now();
      var answer: Reply := *;
      r := answer;
      TalliedAfter(plan, before, count, regs, events, op, row, r);
      count := Counted(count, op, r.started);
      regs := After(regs, op, r);
      if r.started && Mutates(op) { Note(Did(op, row)); }
    }

    /** One transfer, if the budget, the observer and the clock still allow it. `called`: the chip was asked. */
    method Step(op: Op, row: nat) returns (ok: bool, r: Reply, ghost called: bool)
      requires Valid() && (Mutates(op) ==> Allowed(Now(), Did(op, row)))
      modifies this`count, this`regs, this`primary, this`log, this`capped
      ensures Valid()
      ensures called ==> count == Counted(old(count), op, r.started) && regs == After(old(regs), op, r)
      ensures Now() == Moved(plan, old(Now()), op, row, called && r.started)
      ensures !called ==> !ok && count == old(count) && regs == old(regs)
      ensures ok ==> called && Good(r) && primary == old(primary)
      ensures called ==> ok == Good(r)
      ensures !ok && !restoring ==> primary != NotRun
      ensures restoring ==> primary == old(primary)
      ensures row < 64 && old(count).starts < Cap() ==> capped == old(capped)
    {
      hide Counted, After, Advance, Allowed, Tallied, Scan, Ordered;
      r := Reply(false, false, regs.stopped, regs.defaultValid, false, 0, false, 0);
      called := false;
      if row >= 64 || count.starts >= Cap() {
        capped := true;
        if !restoring { Fail(Refused); }
        return false, r, false;
      }
      if !restoring {
        ok := Check();
        if !ok { return; }
      }
      var late: bool := *;
      if late {
        if !restoring { Fail(DeadlineError); }
        return false, r, false;
      }
      r := Transfer(op, row);
      called := true;
      ok := Good(r);
      if !ok && !restoring {
        Fail(if !r.stopped then StopError else if !r.defaultValid then RateError else TransferError);
      }
    }

    /** A transfer whose status byte must read as expected. */
    method Control(op: Op, mask: bv8, want: bv8) returns (ok: bool, ghost r: Reply, ghost called: bool)
      requires Valid() && !Mutates(op)
      modifies this`count, this`regs, this`primary, this`log, this`capped
      ensures Valid() && Now() == old(Now())
      ensures count == if called then Counted(old(count), op, r.started) else old(count)
      ensures regs == if called then Looked(After(old(regs), op, r), op, r) else old(regs)
      ensures ok ==> called && Good(r) && r.byte & mask == want && primary == old(primary)
      ensures !ok && !restoring ==> primary != NotRun
      ensures restoring ==> primary == old(primary)
      ensures old(count).starts < Cap() ==> capped == old(capped)
    {
      hide Counted, After, Advance, Scan, Ordered;
      var s: Reply;
      ok, s, called := Step(op, 0);
      r := s;
      if !ok { return; }
      if op.GetC0? && s.byte & 0x81 != 0 { regs := regs.(readyUnknown := true); }
      if s.byte & mask != want {
        if !restoring { Fail(StateError); }
        return false, r, called;
      }
    }

    /** A control read of the data phase, with its cost. */
    method Look(op: Op, mask: bv8, want: bv8) returns (ok: bool)
      requires Valid() && !Mutates(op) && !restoring
      modifies this`count, this`regs, this`primary, this`log, this`capped
      ensures Valid() && Now() == old(Now())
      ensures Spent(old(count), count, if ok then 1 else 0, 1)
      ensures if ok then primary == old(primary) else primary != NotRun
      ensures old(count).starts < Cap() ==> capped == old(capped)
    {
      hide Counted, After, Advance, Scan, Ordered, Tallied;
      ghost var n := count;
      ghost var r: Reply;
      ghost var called: bool;
      ok, r, called := Control(op, mask, want);
      SpentOne(n, op, r.started);
    }

    /** Any other transfer of the data phase that cannot change the chip. */
    method Fetch(op: Op, row: nat) returns (ok: bool, r: Reply)
      requires Valid() && !Mutates(op) && !restoring
      modifies this`count, this`regs, this`primary, this`log, this`capped
      ensures Valid() && Now() == old(Now())
      ensures Spent(old(count), count, if ok then 1 else 0, 1)
      ensures if ok then primary == old(primary) else primary != NotRun
      ensures row < 64 && old(count).starts < Cap() ==> capped == old(capped)
      ensures ok && op.GetC0? ==> regs.c0Valid && regs.c0 == r.byte
    {
      hide Counted, After, Advance, Scan, Ordered, Tallied;
      ghost var n, g := count, regs;
      ghost var called: bool;
      ok, r, called := Step(op, row);
      SpentOne(n, op, r.started);
      if ok { KeptStatus(g, op, r); }
    }

    /** Polls the status until the chip is ready: at most 8 times after a cache load, 32 after a program. */
    method Ready(program: bool) returns (ok: bool)
      requires Valid() && !restoring
      modifies this`count, this`regs, this`primary, this`log, this`capped, this`completed
      ensures Valid() && Now() == old(Now())
      ensures Spent(old(count), count, if ok then 1 else 0, if program then 32 else 8)
      ensures if ok then primary == old(primary) else primary != NotRun
      ensures completed == if ok && program then old(completed) + 1 else old(completed)
      ensures old(count).starts + (if program then 32 else 8) <= Cap() ==> capped == old(capped)
      ensures ok ==> regs.c0Valid && regs.c0 & 0x8f == 0 && !regs.readyUnknown
    {
      hide Advance, Scan, Ordered;
      var polls := if program then 32 else 8;
      for i := 0 to polls
        invariant Valid() && Now() == old(Now()) && Spent(old(count), count, i, i)
        invariant primary == old(primary) && completed == old(completed)
        invariant old(count).starts + polls <= Cap() ==> capped == old(capped)
      {
        var late: bool := *;
        if late {
          Fail(ReadyTimeout);
          return false;
        }
        var r: Reply;
        ok, r := Fetch(GetC0, 0);
        if !ok { return; }
        if r.byte & 0x81 == 0 { regs := regs.(readyUnknown := false); }
        if r.byte & 0x80 != 0 {
          Fail(StateError);
          return false;
        }
        if r.byte & 0x01 == 0 {
          if r.byte & 0x0e != 0 {
            Fail(if program then ProgramError else StateError);
            return false;
          }
          if !program && regs.b0 == 0x10 && r.byte & 0x70 != 0 {
            Fail(ReadbackError);
            return false;
          }
          if program { completed := completed + 1; }
          ClearBits(r.byte);
          return true;
        }
      }
      Fail(ReadyTimeout);
      ok := false;
    }

    /** Load into the cache, wait, and read the cache. */
    method FetchPage(row: nat, raw: bool) returns (ok: bool, page: Page)
      requires Valid() && !restoring && row < 64
      modifies this`count, this`regs, this`primary, this`log, this`capped, this`completed
      ensures Valid() && Now() == old(Now()) && completed == old(completed)
      ensures Spent(old(count), count, if ok then 3 else 0, 10)
      ensures if ok then primary == old(primary) else primary != NotRun
      ensures old(count).starts + 10 <= Cap() ==> capped == old(capped)
    {
      hide Advance, Scan, Ordered, Tallied;
      page := 0;
      var r: Reply;
      ok, r := Fetch(LoadCache, row);
      if !ok { return; }
      ok := Ready(false);
      if !ok { return; }
      ok, r := Fetch(if raw then ReadRaw else ReadMain, row);
      page := r.page;
    }

    /** A whole page, with the status looked at again before it is believed. */
    method ReadPage(row: nat, raw: bool, b0: bool) returns (ok: bool, page: Page)
      requires Valid() && !restoring && row < 64
      modifies this`count, this`regs, this`primary, this`log, this`capped, this`completed
      ensures Valid() && Now() == if ok then Advance(plan, old(Now()), Read(row, raw, page)) else old(Now())
      ensures Spent(old(count), count, if !ok then 0 else if b0 then 5 else 4, if b0 then 12 else 11)
      ensures if ok then primary == old(primary) else primary != NotRun
      ensures completed == old(completed)
      ensures old(count).starts + (if b0 then 12 else 11) <= Cap() ==> capped == old(capped)
    {
      hide Advance, Scan, Ordered, Tallied;
      ok, page := FetchPage(row, raw);
      if !ok { return; }
      ok := Look(GetC0, if raw then 0x8f else 0xff, 0);
      if !ok { return; }
      if b0 {
        ok := Look(GetB0, 0xff, if raw then 0 else 0x10);
        if !ok { return; }
      }
      ok := Check();
      if !ok { return; }
      TalliedRead(plan, Now(), count, regs, events, Read(row, raw, page));
      Note(Read(row, raw, page));
    }

    /** Every row twice, with an announcement after each eighth. */
    method PreimageRows() returns (ok: bool)
      requires Valid() && !restoring && Now().rows == 0 && !Now().half && events + 8 <= MAX_EVENTS && preimageRows == 0
      modifies this`count, this`regs, this`primary, this`log, this`capped, this`completed, this`events,
               this`preimageRows
      ensures Valid() && Spent(old(count), count, if ok then 576 else 0, 1472)
      ensures if ok then primary == old(primary) else primary != NotRun
      ensures events <= old(events) + 8 && (ok ==> events == old(events) + 8)
      ensures ok ==> Now() == old(Now()).(rows := 64, events := old(Now()).events + 8)
      ensures completed == old(completed)
      ensures old(count).starts + 1472 <= Cap() ==> capped == old(capped)
    {
      hide Scan, Ordered, Tallied, Advance;
      for row := 0 to 64
        invariant Valid() && Spent(old(count), count, 9 * row, 23 * row)
        invariant primary == old(primary) && completed == old(completed)
        invariant events == old(events) + row / 8 && preimageRows == row
        invariant Now() == old(Now()).(rows := row, events := old(Now()).events + row / 8)
        invariant old(count).starts + 1472 <= Cap() ==> capped == old(capped)
      {
        ok := PreimageRow(row);
        if !ok { return; }
        if row % 8 == 7 {
          ghost var p := Now();
          ok := Announce(Milestone.PreimageRows);
          if !ok { return; }
          AckOther(plan, p, Milestone.PreimageRows);
        }
      }
      ok := true;
    }

    /** The whole block, every row twice, against the pinned table; the tail must be blank. */
    method Preimage() returns (ok: bool)
      requires Valid() && !restoring && Now().rows == 0 && !Now().half && events + 8 <= MAX_EVENTS && preimageRows == 0
        && Unhashed()
      modifies this`count, this`regs, this`primary, this`log, this`capped, this`completed, this`events,
               this`preimageRows, this`wholeFault, this`wholeActive, this`wholeBegins, this`wholeAborts
      ensures Valid() && Spent(old(count), count, if ok then 576 else 0, 1472)
      ensures Hashing() && (ok ==> !wholeActive)
      ensures if ok then primary == old(primary) else primary != NotRun
      ensures events <= old(events) + 8 && (ok ==> events == old(events) + 8)
      ensures ok ==> Now() == old(Now()).(rows := 64, events := old(Now()).events + 8)
      ensures completed == old(completed)
      ensures old(count).starts + 1472 <= Cap() ==> capped == old(capped)
    {
      hide Scan, Ordered, Tallied, Advance;
      var whole: bool := *;
      wholeActive, wholeBegins := true, wholeBegins + 1;
      if !whole {
        Fail(HashError);
        return false;
      }
      ok := PreimageRows();
      if !ok { return; }
      var digest: bool := *;
      if !digest {
        Fail(PreimageError);
        return false;
      }
      var aborted: bool := *;
      wholeActive, wholeAborts := false, wholeAborts + 1;
      if !aborted {
        wholeFault := true;
        Fail(HashError);
        return false;
      }
      ok := true;
    }

    /** One page of the old object, as it was stored. */
    method OldRow(after: bool, row: nat) returns (ok: bool)
      requires Valid() && !restoring && row < 3 && ObjectDue(Now(), after, row)
      modifies this`count, this`regs, this`primary, this`log, this`capped, this`completed, this`oldPre, this`oldPost
      ensures Valid() && Spent(old(count), count, if ok then 5 else 0, 12)
      ensures if ok then primary == old(primary) else primary != NotRun
      ensures completed == old(completed)
      ensures ok ==> Now() == if after then old(Now()).(post := row + 1) else old(Now()).(held := row + 1)
      ensures if after then oldPre == old(oldPre) && (ok ==> oldPost == row + 1)
              else oldPost == old(oldPost) && (ok ==> oldPre == row + 1)
      ensures old(count).starts + 12 <= Cap() ==> capped == old(capped)
    {
      hide Scan, Ordered, Tallied, Advance;
      var page: Page;
      ghost var p := Now();
      ok, page := ReadPage(row, false, true);
      if !ok { return; }
      var commitMatches: bool := *;
      if page != plan.stored[row] || (row == 2 && !commitMatches) {
        Fail(OldObjectError);
        return false;
      }
      ObjectRead(plan, p, after, row);
      if after { oldPost := row + 1; } else { oldPre := row + 1; }
      ok := Check();
    }

    /** The three pages of the old object, before or after the mutations. */
    method OldObject(after: bool) returns (ok: bool)
      requires Valid() && !restoring && ObjectDue(Now(), after, 0)
      modifies this`count, this`regs, this`primary, this`log, this`capped, this`completed, this`oldPre, this`oldPost
      ensures Valid() && Spent(old(count), count, if ok then 15 else 0, 36)
      ensures if ok then primary == old(primary) else primary != NotRun
      ensures ok ==> Now() == if after then old(Now()).(post := 3) else old(Now()).(held := 3)
      ensures completed == old(completed)
      ensures if after then oldPre == old(oldPre) && (ok ==> oldPost == 3)
              else oldPost == old(oldPost) && (ok ==> oldPre == 3)
      ensures old(count).starts + 36 <= Cap() ==> capped == old(capped)
    {
      hide Scan, Ordered, Tallied, Advance;
      for row := 0 to 3
        invariant Valid() && Spent(old(count), count, 5 * row, 12 * row)
        invariant primary == old(primary) && completed == old(completed)
        invariant Now() == if after then old(Now()).(post := row) else old(Now()).(held := row)
        invariant if after then oldPre == old(oldPre) else oldPost == old(oldPost)
        invariant row > 0 ==> if after then oldPost == row else oldPre == row
        invariant old(count).starts + 36 <= Cap() ==> capped == old(capped)
      {
        ok := OldRow(after, row);
        if !ok { return; }
      }
      ok := true;
    }

    /** A transfer that can change the chip. */
    method Mutate(op: Op, row: nat) returns (ok: bool)
      requires Valid() && Mutates(op) && !op.WriteDisable? && !restoring && Allowed(Now(), Did(op, row))
      modifies this`count, this`regs, this`primary, this`log, this`capped
      ensures Valid() && (ok ==> Now() == Advance(plan, old(Now()), Did(op, row)))
      ensures Used(old(count), count, if ok then 1 else 0, 1)
      ensures if ok then primary == old(primary) else primary != NotRun
      ensures row < 64 && old(count).starts < Cap() ==> capped == old(capped)
    {
      hide Counted, After, Advance, Scan, Ordered, Tallied;
      ghost var n := count;
      var r: Reply;
      ghost var called: bool;
      ok, r, called := Step(op, row);
      UsedOne(n, op, r.started);
    }

    /** Look at the write-enable latch, have the milestone acknowledged, and only then mutate. */
    method Stage(latch: bv8, e: Milestone, op: Op, s: nat) returns (ok: bool)
      requires Valid() && !restoring && s <= 1 && events < MAX_EVENTS && Mutates(op) && !op.WriteDisable?
      requires Allowed(Advance(plan, Now(), Acked(e)), Did(op, 3 + s))
      modifies this`count, this`regs, this`primary, this`log, this`capped, this`events
      ensures Valid() && Used(old(count), count, if ok then 2 else 0, 2)
      ensures if ok then primary == old(primary) else primary != NotRun
      ensures events <= old(events) + 1
      ensures ok ==>
        events == old(events) + 1 && Now() == Advance(plan, Advance(plan, old(Now()), Acked(e)), Did(op, 3 + s))
      ensures old(count).starts + 2 <= Cap() ==> capped == old(capped)
    {
      hide Scan, Ordered, Tallied, Advance, Allowed;
      ok := Look(GetC0, 0x8f, latch);
      if !ok { return; }
      ok := Announce(e);
      if !ok { return; }
      ok := Mutate(op, 3 + s);
    }

    /** Enable, load and execute one page, each after its own acknowledgement, and wait for it. */
    method Execute(s: nat) returns (ok: bool)
      requires Valid() && !restoring && s <= 1 && ProgramDue(Now(), s) && events + 3 <= MAX_EVENTS
      modifies this`count, this`regs, this`primary, this`log, this`capped, this`completed, this`events
      ensures Valid() && Used(old(count), count, if ok then 7 else 0, 38)
      ensures if ok then primary == old(primary) else primary != NotRun
      ensures events <= old(events) + 3 && (ok ==> events == old(events) + 3 && Now() == Executed(old(Now()), s))
      ensures completed <= old(completed) + 1 && (ok ==> completed == old(completed) + 1)
      ensures old(count).starts + 38 <= Cap() ==> capped == old(capped)
    {
      hide Scan, Ordered, Tallied, Advance, Allowed;
      ExecutePlan(plan, Now(), s);
      ok := Stage(0, BeforeWren, WriteEnable, s);
      if !ok { return; }
      ok := Stage(2, BeforeLoad, Load(s), s);
      if !ok { return; }
      ok := Stage(2, BeforeExec, Exec(s), s);
      if !ok { return; }
      ok := Ready(true);
    }

    /** Program one page and read it back twice. */
    method Program(s: nat) returns (ok: bool)
      requires Valid() && !restoring && s <= 1 && ProgramDue(Now(), s) && events + 4 <= MAX_EVENTS && verified == s
      modifies this`count, this`regs, this`primary, this`log, this`capped, this`completed, this`events, this`verified
      ensures Valid() && Used(old(count), count, if ok then 17 else 0, 62)
      ensures if ok then primary == old(primary) else primary != NotRun
      ensures events <= old(events) + 4 && (ok ==> events == old(events) + 4 && Now() == Programmed(old(Now()), s))
      ensures ok ==> completed == old(completed) + 1 && verified == s + 1
      ensures old(count).starts + 62 <= Cap() ==> capped == old(capped)
    {
      hide Scan, Ordered, Tallied, Advance, Allowed;
      ghost var p := Now();
      ok := Execute(s);
      if !ok { return; }
      ReadbackPlan(plan, p, s);
      for copy := 0 to 2
        invariant Valid() && Used(old(count), count, 7 + 5 * copy, 38 + 12 * copy)
        invariant primary == old(primary) && completed == old(completed) + 1
        invariant events == old(events) + 3 && verified == s
        invariant Now() == Copied(p, s, copy)
        invariant old(count).starts + 62 <= Cap() ==> capped == old(capped)
      {
        var page: Page;
        ok, page := ReadPage(3 + s, false, true);
        if !ok { return; }
        if page != plan.pattern[s] {
          Fail(ReadbackError);
          return false;
        }
        var hashed: bool := *;
        if !hashed {
          Fail(HashError);
          return false;
        }
        ok := Check();
        if !ok { return; }
      }
      verified := verified + 1;
      ok := Announce(ProgramVerified);
    }

    /** A setting is changed and read back, after a look at the status. */
    method Change(status: bv8, op: Op, check: Op, want: bv8) returns (ok: bool)
      requires Valid() && !restoring && (op.RawOff? || op.RawOn? || op.Unlock?) && !Mutates(check)
      modifies this`count, this`regs, this`primary, this`log, this`capped
      ensures Valid() && Used(old(count), count, if ok then 3 else 0, 3)
      ensures if ok then primary == old(primary) else primary != NotRun
      ensures ok ==> Now() == Advance(plan, old(Now()), Did(op, 0))
      ensures old(count).starts + 3 <= Cap() ==> capped == old(capped)
    {
      hide Scan, Ordered, Tallied, Advance;
      ok := Look(GetC0, status, 0);
      if !ok { return; }
      ok := Mutate(op, 0);
      if !ok { return; }
      ok := Look(check, 0xff, want);
    }

    /** Identify the chip three times, require the resting registers, and switch to raw reads. */
    method Begin() returns (ok: bool)
      requires Valid() && !restoring && Now() == NONE && events == 0
      modifies this`count, this`regs, this`primary, this`log, this`capped, this`events
      ensures Valid() && Used(old(count), count, if ok then 10 else 0, 10)
      ensures if ok then primary == old(primary) else primary != NotRun
      ensures events <= 1 && (ok ==> events == 1 && Now() == NONE.(events := 1, b0 := true))
      ensures old(count).starts + 10 <= Cap() ==> capped == old(capped)
    {
      hide Scan, Ordered, Tallied, Advance;
      AckOther(plan, NONE, Preflight);
      for i := 0 to 3
        invariant Valid() && Now() == NONE && Spent(old(count), count, i, i) && primary == old(primary) && events == 0
        invariant old(count).starts + 10 <= Cap() ==> capped == old(capped)
      {
        var r: Reply;
        ok, r := Fetch(ReadId, 0);
        if !ok { return; }
        if !r.id {
          Fail(IdError);
          return false;
        }
      }
      ok := Look(GetC0, 0xff, 0);
      if !ok { return; }
      ok := Look(GetA0, 0xff, 0x7c);
      if !ok { return; }
      ok := Look(GetB0, 0xff, 0x10);
      if !ok { return; }
      ok := Announce(Preflight);
      if !ok { return; }
      ghost var p := Now();
      ok := Change(0x8f, RawOff, GetB0, 0);
      if !ok { return; }
      SettingDone(plan, p, RawOff);
      ok := Look(GetC0, 0x8f, 0);
    }

    /** The pinned table, then back to corrected reads. */
    method ProveTable() returns (ok: bool)
      requires Valid() && !restoring && Now() == NONE && events == 0 && preimageRows == 0 && Unhashed()
      modifies this`count, this`regs, this`primary, this`log, this`capped, this`completed, this`events,
               this`preimageRows, this`wholeFault, this`wholeActive, this`wholeBegins, this`wholeAborts
      ensures Valid() && Used(old(count), count, if ok then 589 else 0, 1485)
      ensures Hashing() && (ok ==> !wholeActive)
      ensures if ok then primary == old(primary) else primary != NotRun
      ensures events <= 9 && (ok ==> events == 9 && Now() == NONE.(events := 9, rows := 64, b0 := true))
      ensures completed == old(completed)
      ensures old(count).starts + 1485 <= Cap() ==> capped == old(capped)
    {
      hide Scan, Ordered, Tallied, Advance;
      ok := Begin();
      if !ok { return; }
      ok := Preimage();
      if !ok { return; }
      ghost var p := Now();
      ok := Change(0x8f, RawOn, GetB0, 0x10);
      if !ok { return; }
      SettingDone(plan, p, RawOn);
    }

    /** Everything that must hold before a page may be touched. */
    method Prove() returns (ok: bool)
      requires Valid() && !restoring && Now() == NONE && events == 0 && preimageRows == 0 && Unhashed()
      modifies this`count, this`regs, this`primary, this`log, this`capped, this`completed, this`events,
               this`preimageRows, this`wholeFault, this`wholeActive, this`wholeBegins, this`wholeAborts, this`oldPre,
               this`oldPost
      ensures Valid() && Used(old(count), count, if ok then 607 else 0, 1524)
      ensures Hashing() && (ok ==> !wholeActive)
      ensures if ok then primary == old(primary) else primary != NotRun
      ensures events <= 10
        && (ok ==> events == 10 && Now() == NONE.(events := 10, rows := 64, held := 3, a0 := true, b0 := true))
      ensures completed == old(completed) && oldPost == old(oldPost)
      ensures old(count).starts + 1524 <= Cap() ==> capped == old(capped)
    {
      hide Scan, Ordered, Tallied, Advance;
      ok := ProveTable();
      if !ok { return; }
      ok := OldObject(false);
      if !ok { return; }
      ghost var q := Now();
      ok := Announce(OldValid);
      if !ok { return; }
      AckOther(plan, q, OldValid);
      ghost var t := Now();
      ok := Change(0x8f, Unlock, GetA0, 0x48);
      if !ok { return; }
      SettingDone(plan, t, Unlock);
    }

    /** The raw first page again: its marker bytes and its pattern. */
    method MarkerPage() returns (ok: bool)
      requires Valid() && !restoring && Now().rows == 64 && Now().post == 3
      modifies this`count, this`regs, this`primary, this`log, this`capped, this`completed, this`markerPost
      ensures Valid() && Used(old(count), count, if ok then 5 else 0, 12)
      ensures if ok then primary == old(primary) else primary != NotRun
      ensures completed == old(completed)
      ensures ok ==> markerPost && Now() == old(Now()).(marker := true)
      ensures old(count).starts + 12 <= Cap() ==> capped == old(capped)
    {
      hide Scan, Ordered, Tallied, Advance;
      ghost var q := Now();
      var page: Page;
      ok, page := ReadPage(0, true, true);
      if !ok { return; }
      MarkerRead(plan, q, page);
      var same: bool := *;
      if !same {
        Fail(OldObjectError);
        return false;
      }
      markerPost := true;
      ok := Check();
    }

    /** After both pages: the old object again, the raw first page, and the last milestone. */
    method Preserve() returns (ok: bool)
      requires Valid() && !restoring && ObjectDue(Now(), true, 0) && events < MAX_EVENTS
      modifies this`count, this`regs, this`primary, this`log, this`capped, this`completed, this`events, this`oldPre,
               this`oldPost, this`markerPost
      ensures Valid() && Used(old(count), count, if ok then 23 else 0, 51)
      ensures if ok then primary == old(primary) else primary != NotRun
      ensures events <= old(events) + 1 && completed == old(completed)
      ensures ok ==> events == old(events) + 1 && oldPost == 3 && markerPost
      ensures ok ==> Now() == old(Now()).(post := 3, b0 := true, marker := true, events := old(Now()).events + 1)
      ensures old(count).starts + 51 <= Cap() ==> capped == old(capped)
    {
      hide Scan, Ordered, Tallied, Advance;
      ok := OldObject(true);
      if !ok { return; }
      ghost var p := Now();
      ok := Change(0x8f, RawOff, GetB0, 0);
      if !ok { return; }
      SettingDone(plan, p, RawOff);
      ok := MarkerPage();
      if !ok { return; }
      ghost var t := Now();
      ok := Announce(Preserved);
      if !ok { return; }
      AckOther(plan, t, Preserved);
    }

    /** The whole data phase: at most 1699 transfers, at least 664 when it succeeds, and then exactly 19 events. */
    method DataRun() returns (ok: bool)
      requires Valid() && !restoring && Now() == NONE && count == Counts(0, 0, 0, 0, 0) && events == 0
        && preimageRows == 0
      requires completed == 0 && verified == 0 && !capped && Unhashed()
      modifies this`count, this`regs, this`primary, this`log, this`capped, this`completed, this`events,
               this`preimageRows, this`wholeFault, this`wholeActive, this`wholeBegins, this`wholeAborts, this`oldPre,
               this`oldPost, this`verified, this`markerPost
      ensures Valid() && count.starts <= 1699 && events <= 19 && !capped && count.wrdi == 0
      ensures Hashing() && (ok ==> !wholeActive)
      ensures if ok then primary == old(primary) else primary != NotRun
      ensures ok ==>
        && 664 <= count.starts && events == 19 && verified == 2 && oldPost == 3 && markerPost
        && Finished(Now())
    {
      hide Scan, Ordered, Tallied, Advance;
      ok := Prove();
      if !ok { return; }
      ok := Program(0);
      if !ok { return; }
      ok := Program(1);
      if !ok { return; }
      ok := Preserve();
    }

    // ----- Restoration ----------------------------------------------------------------------------------

    /** A control read of the restoration: what it shows, and what it leaves alone. */
    method LookBack(op: Op, mask: bv8, want: bv8) returns (ok: bool)
      requires Valid() && restoring && (op.GetA0? || op.GetB0? || op.GetC0?)
      requires mask & 0x81 == 0x81 || !op.GetC0?
      requires want & 0x81 == 0 || !op.GetC0?
      modifies this`count, this`regs, this`primary, this`log, this`capped
      ensures Valid() && Now() == old(Now()) && primary == old(primary)
      ensures Spent(old(count), count, if ok then 1 else 0, 1)
      ensures Held(old(regs), regs, op) && (ok ==> Showed(old(regs), regs, op, mask, want))
      ensures old(count).starts < MAX_STARTS ==> capped == old(capped)
    {
      hide Counted, Advance, Scan, Ordered, Tallied, After, Held, Showed, Looked;
      ghost var n, g := count, regs;
      ghost var r: Reply;
      ghost var called: bool;
      ok, r, called := Control(op, mask, want);
      SpentOne(n, op, r.started);
      HeldAfter(g, op, r, called);
      if ok {
        MaskedClear(r.byte, mask, want);
        ShowedAfter(g, op, r, mask, want);
      }
    }

    /** A setting transfer of the restoration. */
    method SetBack(op: Op) returns (ok: bool)
      requires Valid() && restoring && (op.Lock? || op.RawOn? || op.WriteDisable?)
      modifies this`count, this`regs, this`primary, this`log, this`capped
      ensures Valid() && Now() == Moved(plan, old(Now()), op, 0, old(count).starts != count.starts)
        && primary == old(primary)
      ensures count.starts == old(count).starts || count.starts == old(count).starts + 1
      ensures ok ==> count.starts == old(count).starts + 1
      ensures count.wrdi == old(count).wrdi + (if op.WriteDisable? then count.starts - old(count).starts else 0)
      ensures count.wren == old(count).wren
      ensures Changed(old(regs), regs, op)
        && (ok ==> regs.readyUnknown == old(regs).readyUnknown && regs.fault == old(regs).fault)
      ensures old(count).starts < MAX_STARTS ==> capped == old(capped)
    {
      hide Advance, Scan, Ordered, Tallied, Changed, After;
      ghost var g := regs;
      var r: Reply;
      ghost var called: bool;
      ok, r, called := Step(op, 0);
      ChangedAfter(g, op, r, called);
      if ok { SetQuietly(g, op, r); }
    }

    /** The status first: a write-enable latch left set is cleared, once, if this run set it. */
    method ClearLatch() returns (ok: bool)
      requires Valid() && restoring && count.wrdi == 0
      modifies this`count, this`regs, this`primary, this`log, this`capped
      ensures Valid() && primary == old(primary) && Now() == old(Now())
      ensures count.starts <= old(count).starts + 3 && count.wren == old(count).wren && count.wrdi <= 1
      ensures ok ==> count.starts == old(count).starts + 1 + 2 * count.wrdi
      ensures regs.a0Dirty == old(regs).a0Dirty && regs.b0Dirty == old(regs).b0Dirty && (old(regs).fault ==> regs.fault)
      ensures ok ==> regs.fault == old(regs).fault && regs.readyUnknown == old(regs).readyUnknown
      ensures old(count).starts + 3 <= MAX_STARTS ==> capped == old(capped)
    {
      hide Scan, Ordered, Tallied;
      ok := LookBack(GetC0, 0x81, 0);
      if !ok || regs.c0 & 2 == 0 { return; }
      if count.wren == 0 || count.wrdi != 0 { return false; }
      ok := SetBack(WriteDisable);
      if !ok { return; }
      ok := LookBack(GetC0, 0x83, 0);
    }

    /** Lock again if a lock or unlock was started, and read the register. */
    method RestoreA() returns (ok: bool)
      requires Valid() && restoring
      modifies this`count, this`regs, this`primary, this`log, this`capped
      ensures Valid() && primary == old(primary) && SameBut(Now(), old(Now()))
        && (!old(regs).a0Dirty ==> Now() == old(Now()))
      ensures Used(old(count), count, if !ok then 0 else if old(regs).a0Dirty then 2 else 1, 2)
        && count.wren == old(count).wren
      ensures regs.a0Dirty == old(regs).a0Dirty && regs.b0Dirty == old(regs).b0Dirty && (old(regs).fault ==> regs.fault)
      ensures ok ==> regs.fault == old(regs).fault && regs.readyUnknown == old(regs).readyUnknown
      ensures ok ==> regs.a0Valid && regs.a0 == 0x7c
      ensures old(count).starts + 2 <= MAX_STARTS ==> capped == old(capped)
    {
      hide Scan, Ordered, Tallied;
      if regs.a0Dirty {
        ok := SetBack(Lock);
        if !ok { return; }
      }
      ok := LookBack(GetA0, 0xff, 0x7c);
    }

    /** Corrected reads again if they were switched, and read the register. */
    method RestoreB() returns (ok: bool)
      requires Valid() && restoring
      modifies this`count, this`regs, this`primary, this`log, this`capped
      ensures Valid() && primary == old(primary) && SameBut(Now(), old(Now()))
        && (!old(regs).b0Dirty ==> Now() == old(Now()))
      ensures Used(old(count), count, if !ok then 0 else if old(regs).b0Dirty then 2 else 1, 2)
        && count.wren == old(count).wren
      ensures regs.a0Dirty == old(regs).a0Dirty && regs.b0Dirty == old(regs).b0Dirty && (old(regs).fault ==> regs.fault)
      ensures ok ==> regs.fault == old(regs).fault && regs.readyUnknown == old(regs).readyUnknown
      ensures ok ==> regs.b0Valid && regs.b0 == 0x10 && regs.a0 == old(regs).a0 && regs.a0Valid == old(regs).a0Valid
      ensures old(count).starts + 2 <= MAX_STARTS ==> capped == old(capped)
    {
      hide Scan, Ordered, Tallied;
      if regs.b0Dirty {
        ok := SetBack(RawOn);
        if !ok { return; }
      }
      ok := LookBack(GetB0, 0xff, 0x10);
    }

    /** Attempted after every run that started a transfer. */
    method Restore()
      requires Valid() && !restoring && !restored && !restoreFailed && count.wrdi == 0
      modifies this`count, this`regs, this`primary, this`log, this`capped, this`restoring, this`restored,
               this`restoreFailed
      ensures Fixed(plan) && Ordered(plan, log) && SameBut(Now(), old(Now()))
      ensures count.starts <= old(count).starts + RESTORE_STARTS && count.wrdi <= 1 && (old(regs).fault ==> regs.fault)
      ensures old(count).starts <= MAX_STARTS - RESTORE_STARTS ==> capped == old(capped)
      ensures restored ==> AtRest(regs)
      ensures restored && old(regs).a0Dirty && old(regs).b0Dirty ==>
        count.starts == old(count).starts + 6 + 2 * count.wrdi
      ensures restored || regs.fault || Untouched(Now())
      ensures !restored ==> regs.fault || restoreFailed
      ensures old(primary) != NotRun ==> primary == old(primary)
    {
      hide Scan, Ordered, AtRest, Untouched, SameBut, Tallied;
      var safe: bool := *;
      if !safe || regs.readyUnknown || !regs.defaultValid {
        SameItself(Now());
        regs, restoreFailed := regs.(fault := true), true;
        return;
      }
      restoring := true;
      var ok := RestoreAll();
      restoreFailed := !ok;
      if ok {
        RestKept(regs);
        regs, restored := regs.(a0Dirty := false, b0Dirty := false), true;
        if regs.c0 & 0x0c != 0 { Fail(ProgramError); }
      } else if regs.a0Dirty || regs.b0Dirty || count.wren > 0 {
        regs := regs.(fault := true);
      } else {
        NothingTouched(Now(), count, regs, events);
      }
    }

    method RestoreAll() returns (ok: bool)
      requires Valid() && restoring && count.wrdi == 0 && !regs.readyUnknown
      modifies this`count, this`regs, this`primary, this`log, this`capped
      ensures Valid() && primary == old(primary) && SameBut(Now(), old(Now()))
      ensures count.starts <= old(count).starts + RESTORE_STARTS && count.wrdi <= 1 && (old(regs).fault ==> regs.fault)
      ensures regs.a0Dirty == old(regs).a0Dirty && regs.b0Dirty == old(regs).b0Dirty
      ensures old(count).starts + RESTORE_STARTS <= MAX_STARTS ==> capped == old(capped)
      ensures ok ==> AtRest(regs) && regs.fault == old(regs).fault
      ensures ok && old(regs).a0Dirty && old(regs).b0Dirty ==> count.starts == old(count).starts + 6 + 2 * count.wrdi
    {
      hide Scan, Ordered, Tallied;
      ok := ClearLatch();
      if !ok { return; }
      ok := RestoreA();
      if !ok { return; }
      ok := RestoreB();
      if !ok { return; }
      ok := LookBack(GetC0, 0x83, 0);
    }

    /** The verdict, once everything was attempted. */
    method Judge() returns (outcome: Outcome)
      modifies this`primary
      ensures old(primary) != NotRun ==> primary == old(primary)
      ensures outcome == RestoreError <==> regs.fault || restoreFailed
      ensures outcome == Verified <==>
        primary == NotRun && !regs.fault && !restoreFailed && verified == 2 && oldPost == 3 && markerPost && restored
    {
      var late: bool := *;
      if late && primary == NotRun { Fail(DeadlineError); }
      if regs.fault || restoreFailed {
        outcome := RestoreError;
      } else if primary != NotRun {
        outcome := Failed(primary);
      } else if verified == 2 && oldPost == 3 && markerPost && restored {
        outcome := Verified;
      } else {
        outcome := CleanupError;
      }
    }

    /** A hash still held after the data phase is given back; failing that, here or before, is a fault. */
    method GiveBack()
      requires Hashing()
      modifies this`regs, this`primary, this`wholeFault, this`wholeActive, this`wholeAborts
      ensures !wholeActive && wholeBegins == wholeAborts <= 1
      ensures regs == if wholeFault then old(regs).(fault := true) else old(regs)
      ensures !old(wholeActive) ==> primary == old(primary) && wholeFault == old(wholeFault)
      ensures old(wholeFault) ==> wholeFault
      ensures old(primary) != NotRun ==> primary == old(primary)
    {
      if wholeActive {
        var aborted: bool := *;
        wholeActive, wholeAborts := false, wholeAborts + 1;
        if !aborted {
          wholeFault := true;
          Fail(HashError);
        }
      }
      if wholeFault { regs := regs.(fault := true); }
    }

    /** All that comes before the restoration. */
    method Measure() returns (ok: bool)
      requires Unstarted()
      modifies this`count, this`regs, this`primary, this`log, this`capped, this`completed, this`events,
               this`preimageRows, this`wholeFault, this`wholeActive, this`wholeBegins, this`wholeAborts, this`oldPre,
               this`oldPost, this`verified, this`markerPost
      ensures Valid() && count.starts <= 1699 && events <= 19 && !capped && count.wrdi == 0
      ensures !wholeActive && wholeBegins == wholeAborts <= 1 && (wholeFault ==> regs.fault)
      ensures !ok ==> primary != NotRun
      ensures ok ==>
        && 664 <= count.starts && events == 19 && verified == 2 && oldPost == 3 && markerPost
        && Finished(Now())
      ensures ok ==> regs.a0Dirty && regs.b0Dirty
      ensures count.starts == 0 ==> Untouched(Now())
    {
      hide Scan, Ordered, Advance, Finished, AtRest;
      StartsEmpty(plan, log);
      var prepared: bool := *;
      ok := false;
      if prepared {
        ok := DataRun();
      } else {
        Fail(BindingError);
      }
      GiveBack();
      if ok { FinishedDirty(Now(), count, regs, events); }
    }

    /** The whole experiment. However the chip, the observer and the clock behave: every mutation was
        allowed where it happened; the budgets were never met; the registers end restored by read-back,
        or untouched, or flagged; and a verified run shows everything `Finished` asks for. */
    method Run() returns (outcome: Outcome)
      requires Unstarted()
      modifies this
      ensures Ordered(plan, log) && !capped && count.starts <= MAX_STARTS && events <= 19 && count.wrdi <= 1
      ensures restored || regs.fault || Untouched(Now())
      ensures restored ==> AtRest(regs)
      ensures !wholeActive && wholeBegins == wholeAborts <= 1 && (wholeFault ==> outcome == RestoreError)
      ensures outcome == Verified ==>
        && Finished(Now()) && AtRest(regs) && events == 19
        && 670 + 2 * count.wrdi <= count.starts <= MAX_STARTS
    {
      hide Scan, Ordered, Advance, Finished, AtRest, SameBut;
      var ok := Measure();
      ghost var p := Now();
      if count.starts > 0 { Restore(); }
      if ok { StillFinished(Now(), p); }
      outcome := Judge();
    }

    /** One row: read twice, equal to each other and to the pinned page. */
    method PreimageRow(row: nat) returns (ok: bool)
      requires Valid() && !restoring && row < 64 && Now().rows == row && !Now().half && preimageRows == row
      modifies this`count, this`regs, this`primary, this`log, this`capped, this`completed, this`preimageRows
      ensures Valid() && Spent(old(count), count, if ok then 9 else 0, 23)
      ensures if ok then primary == old(primary) else primary != NotRun
      ensures ok ==> Now() == old(Now()).(rows := row + 1) && preimageRows == row + 1
      ensures completed == old(completed)
      ensures old(count).starts + 23 <= Cap() ==> capped == old(capped)
    {
      hide Scan, Ordered, Tallied, Advance;
      var first, again: Page;
      ghost var p := Now();
      ok, first := ReadPage(row, true, false);
      if !ok { return; }
      ok, again := ReadPage(row, true, false);
      if !ok { return; }
      ok := Look(GetB0, 0xff, 0);
      if !ok { return; }
      if first != again {
        Fail(PreimageError);
        return false;
      }
      var hashed: bool := *;
      if !hashed {
        Fail(HashError);
        return false;
      }
      if again != plan.table[row] {
        Fail(PreimageError);
        return false;
      }
      var blank: bool := *;
      if row >= 3 && !blank {
        Fail(NotBlank);
        return false;
      }
      TwiceRead(plan, p, row);
      preimageRows := preimageRows + 1;
      ok := Check();
    }
  }

  lemma TwiceRead(plan: Plan, p: Progress, row: nat)
    requires Fixed(plan) && p.rows == row < 64 && !p.half
    ensures var m := Read(row, true, plan.table[row]);
      Advance(plan, Advance(plan, p, m), m) == p.(rows := row + 1)
  {
  }

  /** The next row of the old object is due. */
  predicate ObjectDue(p: Progress, after: bool, row: nat) {
    if after then p.rows == 64 && p.held == 3 && p.execs == 2 && p.verified == 2 && p.post == row
    else p.rows == 64 && p.held == row
  }

  lemma ObjectRead(plan: Plan, p: Progress, after: bool, row: nat)
    requires Fixed(plan) && row < 3 && ObjectDue(p, after, row)
    ensures Advance(plan, p, Read(row, false, plan.stored[row])) == if after then p.(post := row + 1)
      else p.(held := row + 1)
  {
  }

  predicate ProgramDue(p: Progress, s: nat) {
    && p.rows == 64 && p.held == 3 && p.wrens == s && p.loads == s && p.execs == s && p.verified == s
    && p.ackWren == s && p.ackLoad == s && p.ackExec == s && p.copies == 0
  }

  function Enabled(p: Progress, s: nat): Progress {
    p.(wrens := s + 1, ackWren := s + 1, events := p.events + 1)
  }

  function Executed(p: Progress, s: nat): Progress {
    p.(wrens := s + 1, loads := s + 1, execs := s + 1, ackWren := s + 1, ackLoad := s + 1, ackExec := s + 1,
       events := p.events + 3)
  }

  /** After `n` read-backs that agree. */
  function Copied(p: Progress, s: nat, n: nat): Progress {
    if n == 0 then Executed(p, s)
    else if n == 1 then Executed(p, s).(copies := 1)
    else Executed(p, s).(verified := s + 1)
  }

  function Programmed(p: Progress, s: nat): Progress {
    Executed(p, s).(verified := s + 1, events := p.events + 4)
  }

  lemma ExecutePlan(plan: Plan, p: Progress, s: nat)
    requires Fixed(plan) && s <= 1 && ProgramDue(p, s)
    ensures
      var a := Advance(plan, p, Acked(BeforeWren));
      var b := Advance(plan, a, Did(WriteEnable, 3 + s));
      var c := Advance(plan, b, Acked(BeforeLoad));
      var d := Advance(plan, c, Did(Load(s), 3 + s));
      var e := Advance(plan, d, Acked(BeforeExec));
      && Allowed(a, Did(WriteEnable, 3 + s)) && Allowed(c, Did(Load(s), 3 + s)) && Allowed(e, Did(Exec(s), 3 + s))
      && Advance(plan, e, Did(Exec(s), 3 + s)) == Executed(p, s)
  {
    hide Fixed;
    EnablePlan(plan, p, s);
  }

  /** The first half: the write is enabled. */
  lemma EnablePlan(plan: Plan, p: Progress, s: nat)
    requires Fixed(plan) && s <= 1 && ProgramDue(p, s)
    ensures
      var a := Advance(plan, p, Acked(BeforeWren));
      && Allowed(a, Did(WriteEnable, 3 + s))
      && Advance(plan, a, Did(WriteEnable, 3 + s)) == Enabled(p, s)
  {
    hide Fixed;
  }

  lemma ReadbackPlan(plan: Plan, p: Progress, s: nat)
    requires Fixed(plan) && s <= 1 && ProgramDue(p, s)
    ensures Advance(plan, Copied(p, s, 0), Read(3 + s, false, plan.pattern[s])) == Copied(p, s, 1)
    ensures Advance(plan, Copied(p, s, 1), Read(3 + s, false, plan.pattern[s])) == Copied(p, s, 2)
    ensures Advance(plan, Copied(p, s, 2), Acked(ProgramVerified)) == Programmed(p, s)
  {
  }

  /** All that a verified run shows: the table read twice as pinned and the old object before any mutation,
      each page enabled, loaded and executed once and read back twice as its pattern, the old object and
      the first raw page again, and every milestone acknowledged. */
  predicate Finished(p: Progress) {
    && p.rows == 64 && p.held == 3 && p.wrens == 2 && p.loads == 2 && p.execs == 2 && p.verified == 2
    && p.post == 3 && p.marker && p.events == 19 && p.a0 && p.b0
  }

  lemma SettingDone(plan: Plan, p: Progress, op: Op)
    requires Fixed(plan) && (op.RawOff? || op.RawOn? || op.Unlock?)
    ensures Advance(plan, p, Did(op, 0)) == if op.Unlock? then p.(a0 := true) else p.(b0 := true)
  {
  }

  lemma MarkerRead(plan: Plan, p: Progress, page: Page)
    requires Fixed(plan) && p.rows == 64 && p.post == 3
    ensures Advance(plan, p, Read(0, true, page)) == p.(marker := true)
  {
  }

  /** The resting registers, by read-back: locked, corrected reads, nothing in progress, no write enabled. */
  predicate AtRest(g: Regs) {
    && g.a0Valid && g.a0 == 0x7c && g.b0Valid && g.b0 == 0x10 && g.c0Valid && g.c0 & 0x83 == 0
    && g.stopped && g.defaultValid && !g.readyUnknown
  }

  /** Nothing that sets a register or the latch was ever started. */
  predicate Untouched(p: Progress) { !p.a0 && !p.b0 && p.wrens == 0 }

  lemma RestKept(g: Regs)
    ensures AtRest(g.(a0Dirty := false, b0Dirty := false)) == AtRest(g)
  {
  }

  lemma NothingTouched(p: Progress, n: Counts, g: Regs, events: nat)
    requires Tallied(p, n, g, events) && !g.a0Dirty && !g.b0Dirty && n.wren == 0
    ensures Untouched(p)
  {
  }

  lemma SameItself(p: Progress)
    ensures SameBut(p, p)
  {
  }

  lemma FinishedDirty(p: Progress, n: Counts, g: Regs, events: nat)
    requires Finished(p) && Tallied(p, n, g, events)
    ensures g.a0Dirty && g.b0Dirty && n.starts > 0
  {
  }

  lemma StillFinished(p: Progress, q: Progress)
    requires SameBut(p, q) && Finished(q)
    ensures Finished(p)
  {
  }

  lemma StartsEmpty(plan: Plan, log: seq<Mark>)
    requires Fixed(plan) && log == []
    ensures Ordered(plan, log) && Scan(plan, log) == NONE
  {
  }

  /** Restoration adds nothing to a progress but that a register was set. */
  predicate SameBut(p: Progress, q: Progress) {
    p == q.(a0 := p.a0, b0 := p.b0) && (q.a0 ==> p.a0) && (q.b0 ==> p.b0)
  }

  lemma AckOther(plan: Plan, p: Progress, e: Milestone)
    requires Fixed(plan) && !e.BeforeWren? && !e.BeforeLoad? && !e.BeforeExec?
    ensures Advance(plan, p, Acked(e)) == p.(events := p.events + 1)
  {
  }

  lemma TalliedRead(plan: Plan, p: Progress, n: Counts, g: Regs, events: nat, m: Mark)
    requires Fixed(plan) && Tallied(p, n, g, events) && m.Read?
    ensures Tallied(Advance(plan, p, m), n, g, events) && Allowed(p, m)
  {
  }
}
