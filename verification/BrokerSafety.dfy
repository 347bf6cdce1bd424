/**
 What every interleaving of the broker's sections keeps: actors are exactly the sections in flight,
 a session holds exactly one connection reference, epochs are never reused, and a session ends only
 when it is idle and, once anything was submitted, acknowledged as retired.
 */
module BrokerSafety {
  import opened Broker
  import opened BrokerRuns

  /** The counts agree with the record: every actor, reference and exclusive phase is accounted for. */
  predicate Counted(s: State, c: Tally, refs: int) {
    && s.actors == c.actors
    && refs == One(s.active) + c.refs
    && c.completing == One(s.completing) && c.submitting == One(s.submitting) && c.delivery == One(s.delivering)
    && c.early + c.submitting <= 1 && c.early + c.delivery <= 1 && (c.early > 0 ==> !s.pending)
  }

  predicate Nested(c: Tally) {
    c.completing <= c.actors && c.submitting <= c.actors && c.delivery <= c.actors
    && c.starting <= c.actors && c.early <= c.actors && c.enqueuing <= c.actors
  }

  predicate Sessions(s: State, epochs: nat) {
    && (!s.active ==> !s.pending && !s.retireQueued && !s.everSubmitted && (s.revoked ==> s.fault))
    && (s.retireQueued ==> !s.pending && s.actors == 0 && s.revoked)
    && (s.actors > 0 ==> s.active)
    && s.lastEpoch == epochs && (s.active ==> s.epoch == s.lastEpoch)
    && s.lastEpoch <= EPOCH_MAX
    && !s.causes.underflow
  }

  predicate Core(s: State, c: Tally, refs: int, epochs: nat) {
    Counted(s, c, refs) && Sessions(s, epochs)
  }

  /** A thread in the middle of a session still belongs to the current one. */
  predicate ThreadOk(s: State, pc: Pc) {
    match pc
    case CmdGate(_, _, _, e, _, _) => s.active && e == s.epoch
    case CmdCommit(_, e, _, _, _) => s.active && e == s.epoch
    case DeliverCheck(_, e, _, _, _) => s.active && e == s.epoch
    case DeliverNotify(e, _, _, _) => s.active && e == s.epoch
    case DeliverAfter(e, _, _, _, _) => s.active && e == s.epoch
    case DeliverEnding(e, _, _, _, _) => s.active && e == s.epoch
    case _ => true
  }

  predicate Idled(s: State) { s.actors == 0 && !s.pending && s.revoked }

  /** A running session goes on, remembering that something was submitted; or it ends, revoked and
      idle, before anything was. */
  predicate Stays(s: State, u: State) {
    s.active ==>
      if u.active then u.epoch == s.epoch && (s.everSubmitted ==> u.everSubmitted) else Idled(s) && !s.everSubmitted
  }

  /** The other way to end: the worker reported that it retired the session. */
  predicate Reported(s: State, u: State) { s.active && !u.active && Idled(s) && s.retireQueued }

  // ----- One lemma for each section --------------------------------------------------------------------

  lemma TickCore(on: bool, s: State, t: int, c: Tally, refs: int, n: nat)
    requires Core(s, c, refs, n)
    ensures Core(TickIf(on, s, t), c, refs, n) && Stays(s, TickIf(on, s, t))
  {
  }

  /** A command gets in only with a good clock, no fault and, inside a session, nothing else going on. */
  lemma VerdictMeans(s: State, conn: nat, r: Request, t: int)
    ensures var v := OpenVerdict(s, conn, r, t);
      && (v.Joined? || v.Opened? ==> s.initialized && !s.fault && ClockOk(s, t))
      && (v.Opened? ==> !s.active && s.lastEpoch < EPOCH_MAX)
      && (v.Joined? ==> s.active && !s.revoked && !s.pending && s.actors == 0 && !s.retireQueued)
  {
  }

  lemma OpenCore(s: State, conn: nat, r: Request, t: int, v: Verdict, c: Tally, refs: int, n: nat)
    requires Core(s, c, refs, n) && Nested(c) && c.refs >= 1 && v == OpenVerdict(s, conn, r, t)
    ensures var u := OpenState(s, conn, r, t);
      var entered := v.Joined? || v.Opened?;
      && Core(u, if entered then c.(actors := c.actors + 1, early := c.early + 1, refs := c.refs - One(v.Opened?))
        else c,
              refs, n + One(v.Opened?))
      && Stays(s, u) && (entered ==> u.active) && (v.Opened? ==> u.epoch == n + 1)
  {
    VerdictMeans(s, conn, r, t);
    var u := TickIf(s.initialized && !s.fault, s, t);
    TickCore(s.initialized && !s.fault, s, t, c, refs, n);
    if v.Opened? {
      assert !u.active && u.actors == 0;
    } else if v.Joined? {
      assert u.active && u.actors == 0;
    } else {
    }
  }

  lemma CommitCore(s: State, r: Request, epoch: nat, deadline: nat, permitted: bool, t: int, c: Tally, refs: int,
      n: nat)
    requires Core(s, c, refs, n) && c.early >= 1 && s.active && c.actors >= 1
    ensures var u := Commit(s, r, epoch, deadline, permitted, t);
      && Core(u, c.(early := c.early - 1, submitting := c.submitting + One(CommitOk(s, epoch, deadline, permitted, t))),
        refs, n)
      && Stays(s, u)
  {
  }

  lemma SubmittedCore(s: State, accepted: bool, c: Tally, refs: int, n: nat)
    requires Core(s, c, refs, n) && c.submitting >= 1 && c.actors >= 1
    ensures Core(Submitted(s, accepted), c.(submitting := c.submitting - 1), refs, n)
      && Stays(s, Submitted(s, accepted))
  {
  }

  lemma LeaveCore(s: State, c: Tally, refs: int, n: nat)
    requires Core(s, c, refs, n) && c.actors >= 1
    ensures Core(Leave(s), c.(actors := c.actors - 1), refs, n) && Stays(s, Leave(s))
  {
  }

  lemma ClearCore(s: State, c: Tally, refs: int, n: nat)
    requires Core(s, c, refs, n) && Nested(c) && s.actors == 0 && s.active
    ensures Core(Clear(s), c.(refs := c.refs + 1), refs, n) && !Clear(s).active
  {
  }

  lemma KickCore(s: State, c: Tally, refs: int, n: nat)
    requires Core(s, c, refs, n) && Nested(c)
    ensures Core(Kick(s), c.(refs := c.refs + One(KickReady(s) && !s.everSubmitted)), refs, n) && Stays(s, Kick(s))
  {
    if KickReady(s) && !s.everSubmitted { ClearCore(s, c, refs, n); }
  }

  lemma RetiredCore(s: State, epoch: nat, ok: bool, c: Tally, refs: int, n: nat)
    requires Core(s, c, refs, n) && Nested(c)
    ensures Core(Retired(s, epoch, ok), c.(refs := c.refs + One(RetireTaken(s, epoch) && ok)), refs, n)
  {
    if RetireTaken(s, epoch) && ok { ClearCore(s, c, refs, n); }
  }

  lemma RetiredReports(s: State, epoch: nat, ok: bool, c: Tally, refs: int, n: nat)
    requires Core(s, c, refs, n)
    ensures Stays(s, Retired(s, epoch, ok)) || (Reported(s, Retired(s, epoch, ok)) && s.epoch == epoch && ok)
  {
  }

  lemma CompleteCore(s: State, c: Tally, refs: int, n: nat)
    requires Core(s, c, refs, n) && s.active && s.pending && !s.completing
    ensures Core(CompleteBegin(s), c.(actors := c.actors + 1, completing := c.completing + 1), refs, n)
    ensures Stays(s, CompleteBegin(s))
  {
  }

  lemma CompleteEndCore(s: State, r: Request, p: Response, success: bool, valid: bool, more: bool, c: Tally, refs: int,
      n: nat)
    requires Core(s, c, refs, n) && c.completing >= 1 && c.actors >= 1
    ensures var u := CompleteEnd(s, r, p, success, valid, more);
      Core(u, c.(completing := c.completing - 1), refs, n) && Stays(s, u)
  {
  }

  lemma ScheduleCore(s: State, c: Tally, refs: int, n: nat)
    requires Core(s, c, refs, n) && ScheduleTaken(s)
    ensures Core(Schedule(s), c.(actors := c.actors + 1, enqueuing := c.enqueuing + 1), refs, n)
      && Stays(s, Schedule(s))
  {
  }

  lemma ScheduleFailedCore(s: State, c: Tally, refs: int, n: nat)
    requires Core(s, c, refs, n) && c.enqueuing >= 1
    ensures Core(ScheduleFailed(s), c.(enqueuing := c.enqueuing - 1), refs, n) && Stays(s, ScheduleFailed(s))
  {
  }

  lemma HandlerCore(s: State, c: Tally, refs: int, n: nat)
    requires Core(s, c, refs, n)
    ensures var k := One(HandlerTaken(s));
      Core(Handler(s), c.(actors := c.actors + k, starting := c.starting + k), refs, n) && Stays(s, Handler(s))
  {
  }

  lemma DeliverStartCore(s: State, c: Tally, refs: int, n: nat)
    requires Core(s, c, refs, n) && c.starting >= 1
    ensures Core(DeliverStart(s), c.(starting := c.starting - 1, delivery := c.delivery + One(Deliverable(s))), refs, n)
    ensures Stays(s, DeliverStart(s))
  {
  }

  lemma DeliverEndCore(s: State, epoch: nat, p: Response, ok: bool, retry: bool, c: Tally, refs: int, n: nat)
    requires Core(s, c, refs, n) && c.delivery >= 1 && s.active && s.epoch == epoch
    ensures Core(DeliverEnd(s, epoch, p, ok, retry), c.(delivery := c.delivery - 1), refs, n)
    ensures Stays(s, DeliverEnd(s, epoch, p, ok, retry))
  {
  }

  // ----- One step of one thread ------------------------------------------------------------------------

  predicate Kept(s: State, e: Effect, pc: Pc, c: Tally, refs: int, n: nat)
    requires Covers(c, Held(pc))
  {
    && Core(e.s, Shift(c, Held(pc), Held(e.pc)), refs + e.refs, n + One(e.opens))
    && ThreadOk(e.s, e.pc) && Stays(s, e.s) && (e.opens ==> e.s.epoch == n + 1)
  }

  /** The same, where the step may also be the report that ends the session. */
  predicate KeptBy(s: State, e: Effect, pc: Pc, a: Action, c: Tally, refs: int, n: nat)
    requires Covers(c, Held(pc))
  {
    && Core(e.s, Shift(c, Held(pc), Held(e.pc)), refs + e.refs, n + One(e.opens))
    && ThreadOk(e.s, e.pc) && (e.opens ==> e.s.epoch == n + 1)
    && (Stays(s, e.s) || (Reported(s, e.s) && a == RetiredCall(s.epoch, true) && pc.Idle?))
  }

  predicate Ready(s: State, pc: Pc, c: Tally, refs: int, n: nat) {
    Covers(c, Held(pc)) && Core(s, c, refs, n) && ThreadOk(s, pc)
  }

  lemma ResumeHeld(s: State, k: Cont)
    ensures Held(Resume(k)) == Nesting(k, 0, 0, 0) && ThreadOk(s, Resume(k))
  {
  }

  /** A counted thread is inside the session, and stays inside it. */
  lemma Inside(s: State, u: State, c: Tally, refs: int, n: nat)
    requires Core(s, c, refs, n) && c.actors >= 1 && Stays(s, u)
    ensures s.active && u.active && u.epoch == s.epoch
  {
  }

  /** References move between a thread and the session without touching the record. */
  lemma RefsCore(s: State, k: int, c: Tally, refs: int, n: nat)
    requires Core(s, c, refs, n) && c.refs + k >= 0
    ensures Core(s, c.(refs := c.refs + k), refs + k, n)
  {
  }

  lemma EnqueuedCore(s: State, c: Tally, refs: int, n: nat)
    requires Core(s, c, refs, n) && c.enqueuing >= 1
    ensures Core(s, c.(enqueuing := c.enqueuing - 1), refs, n)
  {
  }

  lemma Landed(s: State, pc: Pc, e: Effect, c: Tally, d: Tally, refs: int, n: nat)
    requires Covers(c, Held(pc)) && d == Shift(c, Held(pc), Held(e.pc))
    requires Core(e.s, d, refs + e.refs, n + One(e.opens)) && ThreadOk(e.s, e.pc) && Stays(s, e.s)
    requires e.opens ==> e.s.epoch == n + 1
    ensures Kept(s, e, pc, c, refs, n)
  {
  }

  lemma CompleteKept(s: State, work: bool, a: Action, e: Effect, c: Tally, refs: int, n: nat)
    requires a.Complete? && Ready(s, Idle, c, refs, n) && e == Enter(s, work, a)
    ensures Kept(s, e, Idle, c, refs, n)
  {
    hide Core, Stays, Broker.CompleteBegin;
    if CompleteTaken(s, a.epoch, a.sequence) {
      CompleteCore(s, c, refs, n);
      Landed(s, Idle, e, c, c.(actors := c.actors + 1, completing := c.completing + 1), refs, n);
    } else {
      Landed(s, Idle, e, c, c, refs, n);
    }
  }

  lemma StreamReadyKept(s: State, work: bool, a: Action, e: Effect, c: Tally, refs: int, n: nat)
    requires a.StreamReady? && Ready(s, Idle, c, refs, n) && e == Enter(s, work, a)
    ensures Kept(s, e, Idle, c, refs, n)
  {
    hide Core, Stays, Broker.TickIf;
    TickCore(true, s, a.t, c, refs, n);
    Landed(s, Idle, e, c, c, refs, n);
  }

  lemma RevokedCore(s: State, on: bool, c: Tally, refs: int, n: nat)
    requires Core(s, c, refs, n)
    ensures var u := s.(revoked := s.revoked || (s.active && on)); Core(u, c, refs, n) && Stays(s, u)
  {
  }

  lemma PolledCore(s: State, ready: bool, t: int, c: Tally, refs: int, n: nat)
    requires Core(s, c, refs, n)
    ensures Core(Polled(s, ready, t), c, refs, n)
  {
    hide Core, Stays, Broker.TickIf;
    TickCore(s.initialized, s, t, c, refs, n);
    RevokedCore(TickIf(s.initialized, s, t), s.initialized && !ready, c, refs, n);
  }

  lemma PolledStays(s: State, ready: bool, t: int, c: Tally, refs: int, n: nat)
    requires Core(s, c, refs, n)
    ensures Stays(s, Polled(s, ready, t))
  {
  }

  lemma PollKept(s: State, work: bool, a: Action, e: Effect, c: Tally, refs: int, n: nat)
    requires a.Poll? && Ready(s, Idle, c, refs, n) && e == Enter(s, work, a)
    ensures Kept(s, e, Idle, c, refs, n)
  {
    hide Core, Stays, Broker.Polled;
    PolledCore(s, a.ready, a.t, c, refs, n);
    PolledStays(s, a.ready, a.t, c, refs, n);
    Landed(s, Idle, e, c, c, refs, n);
  }

  lemma RetiredKept(s: State, work: bool, a: Action, e: Effect, c: Tally, refs: int, n: nat)
    requires a.RetiredCall? && Ready(s, Idle, c, refs, n) && e == Enter(s, work, a)
    ensures KeptBy(s, e, Idle, a, c, refs, n)
  {
    hide Core, Stays, Reported, Broker.Retired;
    RetiredCore(s, a.epoch, a.ok, c, refs, n);
    RetiredReports(s, a.epoch, a.ok, c, refs, n);
    assert Shift(c, Held(Idle), Held(e.pc)) == c.(refs := c.refs + One(RetireTaken(s, a.epoch) && a.ok));
  }

  lemma RunWorkKept(s: State, work: bool, a: Action, e: Effect, c: Tally, refs: int, n: nat)
    requires a.RunWork? && Ready(s, Idle, c, refs, n) && e == Enter(s, work, a)
    ensures Kept(s, e, Idle, c, refs, n)
  {
    hide Core, Stays, Broker.Handler;
    if work {
      HandlerCore(s, c, refs, n);
      var k := One(HandlerTaken(s));
      Landed(s, Idle, e, c, c.(actors := c.actors + k, starting := c.starting + k), refs, n);
    } else {
      Landed(s, Idle, e, c, c, refs, n);
    }
  }

  lemma CommandEntryKept(s: State, work: bool, a: Action, e: Effect, c: Tally, refs: int, n: nat)
    requires (a.Command? || a.Go?) && Ready(s, Idle, c, refs, n) && e == Enter(s, work, a)
    ensures Kept(s, e, Idle, c, refs, n)
  {
    hide Core, Stays;
    RefsCore(s, if a.Command? then 1 else 0, c, refs, n);
    Landed(s, Idle, e, c, if a.Command? then c.(refs := c.refs + 1) else c, refs, n);
  }

  lemma ClockCore(s: State, t: int, c: Tally, refs: int, n: nat)
    requires Core(s, c, refs, n)
    ensures Core(Clock(s, t), c, refs, n) && Stays(s, Clock(s, t))
  {
  }

  lemma DisconnectedCore(s: State, conn: nat, c: Tally, refs: int, n: nat)
    requires Core(s, c, refs, n)
    ensures Core(Disconnected(s, conn), c, refs, n) && Stays(s, Disconnected(s, conn))
  {
  }

  lemma InitCore(s: State, c: Tally, refs: int, n: nat)
    requires Core(s, c, refs, n)
    ensures Core(Broker.Init(s), c, refs, n) && Stays(s, Broker.Init(s))
  {
  }

  lemma QueryKept(s: State, work: bool, a: Action, e: Effect, c: Tally, refs: int, n: nat)
    requires (a.Init? || a.Disconnect? || a.Query?) && Ready(s, Idle, c, refs, n) && e == Enter(s, work, a)
    ensures Kept(s, e, Idle, c, refs, n)
  {
    hide Core, Stays, Broker.Clock, Broker.TickIf, Broker.Disconnected, Broker.Init;
    if a.Query? {
      TickCore(true, s, a.t, c, refs, n);
      ClockCore(s, a.t, c, refs, n);
    } else if a.Disconnect? {
      DisconnectedCore(s, a.conn, c, refs, n);
    } else {
      InitCore(s, c, refs, n);
    }
    Landed(s, Idle, e, c, c, refs, n);
  }

  lemma OpenKept(s: State, pc: Pc, work: bool, t: int, yes: bool, e: Effect, c: Tally, refs: int, n: nat)
    requires pc.CmdOpen? && Ready(s, pc, c, refs, n) && e == CommandStep(s, pc, work, t, yes)
    ensures Kept(s, e, pc, c, refs, n)
  {
    hide Core, Stays, Broker.OpenState, Broker.OpenVerdict;
    var v := OpenVerdict(s, pc.conn, pc.r, t);
    OpenCore(s, pc.conn, pc.r, t, v, c, refs, n);
    if v.Joined? || v.Opened? {
      Landed(s, pc, e, c, c.(actors := c.actors + 1, early := c.early + 1, refs := c.refs - One(v.Opened?)), refs, n);
    } else {
      Landed(s, pc, e, c, c, refs, n);
    }
  }

  lemma GateKept(s: State, pc: Pc, work: bool, t: int, yes: bool, e: Effect, c: Tally, refs: int, n: nat)
    requires pc.CmdGate? && Ready(s, pc, c, refs, n) && e == CommandStep(s, pc, work, t, yes)
    ensures Kept(s, e, pc, c, refs, n)
  {
    hide Core, Stays, Broker.TickIf, Broker.Live;
    TickCore(yes, s, t, c, refs, n);
    Inside(s, e.s, c, refs, n);
    Landed(s, pc, e, c, c, refs, n);
  }

  lemma CommitKept(s: State, pc: Pc, work: bool, t: int, yes: bool, e: Effect, c: Tally, refs: int, n: nat)
    requires pc.CmdCommit? && Ready(s, pc, c, refs, n) && e == CommandStep(s, pc, work, t, yes)
    ensures Kept(s, e, pc, c, refs, n)
  {
    hide Core, Stays, Broker.Commit, Broker.CommitOk;
    Inside(s, s, c, refs, n);
    CommitCore(s, pc.r, pc.epoch, pc.deadline, pc.permitted, t, c, refs, n);
    var k := One(CommitOk(s, pc.epoch, pc.deadline, pc.permitted, t));
    Landed(s, pc, e, c, c.(early := c.early - 1, submitting := c.submitting + k), refs, n);
  }

  lemma SubmittedKept(s: State, pc: Pc, work: bool, t: int, yes: bool, e: Effect, c: Tally, refs: int, n: nat)
    requires pc.CmdSubmitted? && Ready(s, pc, c, refs, n) && e == CommandStep(s, pc, work, t, yes)
    ensures Kept(s, e, pc, c, refs, n)
  {
    hide Core, Stays, Broker.Submitted;
    SubmittedCore(s, yes, c, refs, n);
    Landed(s, pc, e, c, c.(submitting := c.submitting - 1), refs, n);
  }

  lemma UnrefKept(s: State, pc: Pc, work: bool, t: int, yes: bool, e: Effect, c: Tally, refs: int, n: nat)
    requires (pc.CmdDone? || pc.CmdRefused?) && Ready(s, pc, c, refs, n) && e == CommandStep(s, pc, work, t, yes)
    ensures Kept(s, e, pc, c, refs, n)
  {
    hide Core, Stays;
    RefsCore(s, e.refs, c, refs, n);
    Landed(s, pc, e, c, c.(refs := c.refs + e.refs), refs, n);
  }

  lemma CompletingKept(s: State, pc: Pc, work: bool, t: int, yes: bool, m: Notify, e: Effect, c: Tally, refs: int,
      n: nat)
    requires (pc.CompleteChecking? || pc.CompleteEnding?) && Ready(s, pc, c, refs, n)
      && e == DeliveryStep(s, pc, work, t, yes, m)
    ensures Kept(s, e, pc, c, refs, n)
  {
    hide Core, Stays, Broker.CompleteEnd, Broker.FrameOk;
    if pc.CompleteEnding? {
      CompleteEndCore(s, pc.r, pc.p, pc.success, pc.valid, pc.more, c, refs, n);
      Landed(s, pc, e, c, c.(completing := c.completing - 1), refs, n);
    } else {
      Landed(s, pc, e, c, c, refs, n);
    }
  }

  lemma DeliveringKept(s: State, pc: Pc, work: bool, t: int, yes: bool, m: Notify, e: Effect, c: Tally, refs: int,
      n: nat)
    requires pc.Delivering? && Ready(s, pc, c, refs, n) && e == DeliveryStep(s, pc, work, t, yes, m)
    ensures Kept(s, e, pc, c, refs, n)
  {
    hide Core, Stays, Broker.DeliverStart;
    DeliverStartCore(s, c, refs, n);
    Inside(s, e.s, c, refs, n);
    Landed(s, pc, e, c, c.(starting := c.starting - 1, delivery := c.delivery + One(Deliverable(s))), refs, n);
  }

  lemma CheckKept(s: State, pc: Pc, work: bool, t: int, yes: bool, m: Notify, e: Effect, c: Tally, refs: int, n: nat)
    requires pc.DeliverCheck? && Ready(s, pc, c, refs, n) && e == DeliveryStep(s, pc, work, t, yes, m)
    ensures Kept(s, e, pc, c, refs, n)
  {
    hide Core, Stays, Broker.TickIf, Broker.Live;
    TickCore(pc.ok && (yes || pc.left == 2), s, t, c, refs, n);
    Inside(s, e.s, c, refs, n);
    Landed(s, pc, e, c, c, refs, n);
  }

  lemma NotifiedCore(s: State, p: Response, accepted: bool, c: Tally, refs: int, n: nat)
    requires Core(s, c, refs, n)
    ensures Core(Notified(s, p, accepted), c, refs, n) && Stays(s, Notified(s, p, accepted))
  {
  }

  lemma NotifyKept(s: State, pc: Pc, work: bool, t: int, yes: bool, m: Notify, e: Effect, c: Tally, refs: int, n: nat)
    requires pc.DeliverNotify? && Ready(s, pc, c, refs, n) && e == DeliveryStep(s, pc, work, t, yes, m)
    ensures Kept(s, e, pc, c, refs, n)
  {
    hide Core, Stays, Broker.Notified;
    NotifiedCore(s, pc.p, pc.ok && m.Accepted?, c, refs, n);
    Inside(s, e.s, c, refs, n);
    Landed(s, pc, e, c, c, refs, n);
  }

  lemma AfterKept(s: State, pc: Pc, work: bool, t: int, yes: bool, m: Notify, e: Effect, c: Tally, refs: int, n: nat)
    requires pc.DeliverAfter? && Ready(s, pc, c, refs, n) && e == DeliveryStep(s, pc, work, t, yes, m)
    ensures Kept(s, e, pc, c, refs, n)
  {
    hide Core, Stays, Broker.TickIf, Broker.Live;
    TickCore(pc.accepted || pc.full, s, t, c, refs, n);
    Inside(s, e.s, c, refs, n);
    Landed(s, pc, e, c, c, refs, n);
  }

  lemma DeliverEndingKept(s: State, pc: Pc, work: bool, t: int, yes: bool, m: Notify, e: Effect, c: Tally, refs: int,
      n: nat)
    requires pc.DeliverEnding? && Ready(s, pc, c, refs, n) && e == DeliveryStep(s, pc, work, t, yes, m)
    ensures Kept(s, e, pc, c, refs, n)
  {
    hide Core, Stays, Broker.DeliverEnd;
    DeliverEndCore(s, pc.epoch, pc.p, pc.ok, pc.retry, c, refs, n);
    Landed(s, pc, e, c, c.(delivery := c.delivery - 1), refs, n);
  }

  lemma SchedulingKept(s: State, pc: Pc, work: bool, yes: bool, e: Effect, c: Tally, refs: int, n: nat)
    requires pc.Scheduling? && Ready(s, pc, c, refs, n) && e == TailStep(s, pc, work, yes)
    ensures Kept(s, e, pc, c, refs, n)
  {
    hide Core, Stays, Broker.Schedule;
    ResumeHeld(s, pc.k);
    if ScheduleTaken(s) {
      ScheduleCore(s, c, refs, n);
      Landed(s, pc, e, c, c.(actors := c.actors + 1, enqueuing := c.enqueuing + 1), refs, n);
    } else {
      Landed(s, pc, e, c, c, refs, n);
    }
  }

  lemma EnqueueingKept(s: State, pc: Pc, work: bool, yes: bool, e: Effect, c: Tally, refs: int, n: nat)
    requires pc.Enqueueing? && Ready(s, pc, c, refs, n) && e == TailStep(s, pc, work, yes)
    ensures Kept(s, e, pc, c, refs, n)
  {
    hide Core, Stays, Broker.ScheduleFailed;
    if yes {
      EnqueuedCore(s, c, refs, n);
    } else {
      ScheduleFailedCore(s, c, refs, n);
    }
    Landed(s, pc, e, c, c.(enqueuing := c.enqueuing - 1), refs, n);
  }

  lemma LeavingKept(s: State, pc: Pc, work: bool, yes: bool, e: Effect, c: Tally, refs: int, n: nat)
    requires pc.Leaving? && Ready(s, pc, c, refs, n) && e == TailStep(s, pc, work, yes)
    ensures Kept(s, e, pc, c, refs, n)
  {
    hide Core, Stays, Broker.Leave;
    LeaveCore(s, c, refs, n);
    Landed(s, pc, e, c, c.(actors := c.actors - 1), refs, n);
  }

  lemma KickingKept(s: State, pc: Pc, work: bool, yes: bool, e: Effect, c: Tally, refs: int, n: nat)
    requires pc.Kicking? && Ready(s, pc, c, refs, n) && e == TailStep(s, pc, work, yes)
    ensures Kept(s, e, pc, c, refs, n)
  {
    hide Core, Stays, Broker.Kick, Resume;
    ResumeHeld(Kick(s), pc.k);
    KickCore(s, c, refs, n);
    Landed(s, pc, e, c, c.(refs := c.refs + One(KickReady(s) && !s.everSubmitted)), refs, n);
  }

  lemma HookFailedCore(s: State, epoch: nat, c: Tally, refs: int, n: nat)
    requires Core(s, c, refs, n)
    ensures Core(RetireHookFailed(s, epoch), c, refs, n) && Stays(s, RetireHookFailed(s, epoch))
  {
  }

  lemma DroppingKept(s: State, pc: Pc, work: bool, yes: bool, e: Effect, c: Tally, refs: int, n: nat)
    requires pc.Dropping? && Ready(s, pc, c, refs, n) && e == TailStep(s, pc, work, yes)
    ensures Kept(s, e, pc, c, refs, n)
  {
    hide Core, Stays;
    ResumeHeld(e.s, pc.k);
    RefsCore(s, -1, c, refs, n);
    Landed(s, pc, e, c, c.(refs := c.refs - 1), refs, n);
  }

  lemma RetiringKept(s: State, pc: Pc, work: bool, yes: bool, e: Effect, c: Tally, refs: int, n: nat)
    requires pc.Retiring? && Ready(s, pc, c, refs, n) && e == TailStep(s, pc, work, yes)
    ensures Kept(s, e, pc, c, refs, n)
  {
    hide Core, Stays, Broker.RetireHookFailed;
    ResumeHeld(e.s, pc.k);
    HookFailedCore(s, pc.epoch, c, refs, n);
    Landed(s, pc, e, c, c, refs, n);
  }

  lemma CalledKept(s: State, work: bool, a: Action, e: Effect, c: Tally, refs: int, n: nat)
    requires !a.RetiredCall? && Ready(s, Idle, c, refs, n) && e == Enter(s, work, a)
    ensures Kept(s, e, Idle, c, refs, n)
  {
    hide Kept, Ready, Enter;
    match a
    case Complete(_, _, _, _, _) => CompleteKept(s, work, a, e, c, refs, n);
    case StreamReady(_, _, _) => StreamReadyKept(s, work, a, e, c, refs, n);
    case Poll(_, _) => PollKept(s, work, a, e, c, refs, n);
    case RunWork => RunWorkKept(s, work, a, e, c, refs, n);
    case Command(_, _) => CommandEntryKept(s, work, a, e, c, refs, n);
    case Go(_, _, _) => CommandEntryKept(s, work, a, e, c, refs, n);
    case _ => QueryKept(s, work, a, e, c, refs, n);
  }

  lemma EnterKept(s: State, work: bool, a: Action, e: Effect, c: Tally, refs: int, n: nat)
    requires Ready(s, Idle, c, refs, n) && e == Enter(s, work, a)
    ensures KeptBy(s, e, Idle, a, c, refs, n)
  {
    hide Enter, Core, Stays;
    if a.RetiredCall? {
      RetiredKept(s, work, a, e, c, refs, n);
    } else {
      CalledKept(s, work, a, e, c, refs, n);
    }
  }

  lemma CommandKept(s: State, pc: Pc, work: bool, a: Action, e: Effect, c: Tally, refs: int, n: nat)
    requires a.Go? && InCommand(pc) && Ready(s, pc, c, refs, n) && e == Next(s, pc, work, a)
    ensures Kept(s, e, pc, c, refs, n)
  {
    hide Kept, Ready, CommandStep, DeliveryStep, TailStep;
    match pc
    case CmdOpen(_, _) => OpenKept(s, pc, work, a.t, a.yes, e, c, refs, n);
    case CmdGate(_, _, _, _, _, _) => GateKept(s, pc, work, a.t, a.yes, e, c, refs, n);
    case CmdCommit(_, _, _, _, _) => CommitKept(s, pc, work, a.t, a.yes, e, c, refs, n);
    case CmdSubmitted(_) => SubmittedKept(s, pc, work, a.t, a.yes, e, c, refs, n);
    case CmdDone(_) => UnrefKept(s, pc, work, a.t, a.yes, e, c, refs, n);
    case CmdRefused => UnrefKept(s, pc, work, a.t, a.yes, e, c, refs, n);
  }

  lemma DeliveryKept(s: State, pc: Pc, work: bool, a: Action, e: Effect, c: Tally, refs: int, n: nat)
    requires a.Go? && InDelivery(pc) && Ready(s, pc, c, refs, n) && e == Next(s, pc, work, a)
    ensures Kept(s, e, pc, c, refs, n)
  {
    hide Kept, Ready, CommandStep, DeliveryStep, TailStep;
    match pc
    case CompleteChecking(_, _, _, _) => CompletingKept(s, pc, work, a.t, a.yes, a.n, e, c, refs, n);
    case CompleteEnding(_, _, _, _, _) => CompletingKept(s, pc, work, a.t, a.yes, a.n, e, c, refs, n);
    case Delivering => DeliveringKept(s, pc, work, a.t, a.yes, a.n, e, c, refs, n);
    case DeliverCheck(_, _, _, _, _) => CheckKept(s, pc, work, a.t, a.yes, a.n, e, c, refs, n);
    case DeliverNotify(_, _, _, _) => NotifyKept(s, pc, work, a.t, a.yes, a.n, e, c, refs, n);
    case DeliverAfter(_, _, _, _, _) => AfterKept(s, pc, work, a.t, a.yes, a.n, e, c, refs, n);
    case DeliverEnding(_, _, _, _, _) => DeliverEndingKept(s, pc, work, a.t, a.yes, a.n, e, c, refs, n);
  }

  lemma TailKept(s: State, pc: Pc, work: bool, a: Action, e: Effect, c: Tally, refs: int, n: nat)
    requires a.Go? && !pc.Idle? && !InCommand(pc) && !InDelivery(pc) && Ready(s, pc, c, refs, n)
      && e == Next(s, pc, work, a)
    ensures Kept(s, e, pc, c, refs, n)
  {
    hide Kept, Ready, CommandStep, DeliveryStep, TailStep;
    match pc
    case Scheduling(_) => SchedulingKept(s, pc, work, a.yes, e, c, refs, n);
    case Enqueueing(_) => EnqueueingKept(s, pc, work, a.yes, e, c, refs, n);
    case Leaving(_) => LeavingKept(s, pc, work, a.yes, e, c, refs, n);
    case Kicking(_) => KickingKept(s, pc, work, a.yes, e, c, refs, n);
    case Dropping(_) => DroppingKept(s, pc, work, a.yes, e, c, refs, n);
    case Retiring(_, _) => RetiringKept(s, pc, work, a.yes, e, c, refs, n);
  }

  lemma NextKept(s: State, pc: Pc, work: bool, a: Action, e: Effect, c: Tally, refs: int, n: nat)
    requires Ready(s, pc, c, refs, n) && e == Next(s, pc, work, a)
    ensures KeptBy(s, e, pc, a, c, refs, n)
  {
    hide Core, Stays, CommandStep, DeliveryStep, Enter;
    if a.Go? && !pc.Idle? {
      if InCommand(pc) {
        CommandKept(s, pc, work, a, e, c, refs, n);
      } else if InDelivery(pc) {
        DeliveryKept(s, pc, work, a, e, c, refs, n);
      } else {
        TailKept(s, pc, work, a, e, c, refs, n);
      }
    } else if pc.Idle? && !a.Go? {
      EnterKept(s, work, a, e, c, refs, n);
    } else {
      Landed(s, pc, e, c, c, refs, n);
    }
  }

  // ----- Whole runs -----------------------------------------------------------------------------------

  predicate Threads(s: State, ts: seq<Pc>) {
    forall j :: 0 <= j < |ts| ==> ThreadOk(s, ts[j])
  }

  /** No epoch is ever given to two sessions: they count up from one. */
  predicate EpochsCount(epochs: seq<nat>) {
    forall k :: 0 <= k < |epochs| ==> epochs[k] == k + 1
  }

  predicate Safe(w: World) {
    Core(w.s, Counts(w.threads), w.refs, |w.epochs|) && Threads(w.s, w.threads) && EpochsCount(w.epochs)
  }

  /** The static record and its surroundings as the program starts, with any number of threads. */
  predicate Boots(w: World) {
    var s := w.s;
    && !s.initialized && !s.fault && !s.active && !s.revoked && !s.pending && !s.submitting && !s.completing
    && !s.terminal && !s.terminalOk && !s.delivering && !s.queued && !s.retireQueued && s.actors == 0
    && !s.everSubmitted && s.epoch == 0 && s.lastEpoch == 0 && !s.priorValid && !s.streamMore
    && s.streamSent == 0 && s.streamTotal == 0 && s.lastNow == 0 && s.request == NO_REQUEST && s.response == NO_RESPONSE
    && s.causes == Causes(false, false, false) && !s.committed && s.sent == []
    && (forall j :: 0 <= j < |w.threads| ==> w.threads[j] == Idle) && !w.work && w.refs == 0 && w.epochs == []
  }

  lemma {:induction false} SumOfIdle(ts: seq<Pc>)
    requires forall j :: 0 <= j < |ts| ==> ts[j] == Idle
    ensures Counts(ts) == Tally(0, 0, 0, 0, 0, 0, 0, 0)
  {
    if ts != [] { SumOfIdle(ts[..|ts| - 1]); }
  }

  lemma BootsSafe(w: World)
    requires Boots(w)
    ensures Safe(w)
  {
    SumOfIdle(w.threads);
  }

  lemma OthersStay(s: State, u: State, ts: seq<Pc>, i: nat, j: nat, refs: int, n: nat)
    requires i < |ts| && j < |ts| && Core(s, Counts(ts), refs, n) && (Stays(s, u) || Reported(s, u))
      && ThreadOk(s, ts[j])
    ensures ThreadOk(u, ts[j])
  {
    SumAtLeast(Actors, ts, j);
  }

  /** What one step may do to a running session. */
  predicate SessionStep(w: World, i: nat, a: Action)
    requires i < |w.threads|
  {
    var u := Step(w, i, a).s;
    Stays(w.s, u) || (Reported(w.s, u) && a == RetiredCall(w.s.epoch, true) && w.threads[i].Idle?)
  }

  lemma StepSafe(w: World, i: nat, a: Action)
    requires Safe(w) && i < |w.threads|
    ensures Safe(Step(w, i, a)) && SessionStep(w, i, a)
  {
    hide Core, Stays, Reported, Next, Shift;
    var e := Next(w.s, w.threads[i], w.work, a);
    Moved(w.threads, i, e.pc);
    NextKept(w.s, w.threads[i], w.work, a, e, Counts(w.threads), w.refs, |w.epochs|);
    var ts := w.threads[i := e.pc];
    forall j | 0 <= j < |ts| ensures ThreadOk(e.s, ts[j]) {
      if j != i { OthersStay(w.s, e.s, w.threads, i, j, w.refs, |w.epochs|); }
    }
  }

  /** A schedule is any choice, step by step, of a thread and what it meets. */
  datatype Event = Event(thread: nat, action: Action)

  function Run(w: World, run: seq<Event>): (v: World)
    ensures |v.threads| == |w.threads|
  {
    if run == [] then w
    else
      var v := Run(w, run[..|run| - 1]);
      var e := run[|run| - 1];
      if e.thread < |v.threads| then Step(v, e.thread, e.action) else v
  }

  /** Over every schedule of every number of threads. */
  lemma {:induction false} RunSafe(w: World, run: seq<Event>)
    requires Boots(w)
    ensures Safe(Run(w, run))
  {
    if run == [] {
      BootsSafe(w);
    } else {
      RunSafe(w, run[..|run| - 1]);
      var v := Run(w, run[..|run| - 1]);
      var e := run[|run| - 1];
      if e.thread < |v.threads| { StepSafe(v, e.thread, e.action); }
    }
  }

  // ----- Main results ---------------------------------------------------------------------------------

  /** The actor count is the number of sections in flight, the underflow branch is never taken, exactly
      one reference is held for a session beside those threads still owe, and epochs never repeat. */
  lemma {:induction false} ActorsAndReferencesBalance(w: World, run: seq<Event>)
    requires Boots(w)
    ensures var v := Run(w, run);
      && v.s.actors == Sum(Actors, v.threads) && !v.s.causes.underflow
      && v.refs == One(v.s.active) + Sum(Refs, v.threads)
      && v.s.lastEpoch == |v.epochs| && (forall k :: 0 <= k < |v.epochs| ==> v.epochs[k] == k + 1)
  {
    RunSafe(w, run);
  }

  /** When every thread has returned, nothing leaked: no actor, and a reference exactly for a session. */
  lemma QuietMeansBalanced(w: World, run: seq<Event>)
    requires Boots(w) && forall j :: 0 <= j < |w.threads| ==> Run(w, run).threads[j] == Idle
    ensures var v := Run(w, run);
      v.s.actors == 0 && v.refs == One(v.s.active) && !v.s.submitting && !v.s.completing && !v.s.delivering
  {
    RunSafe(w, run);
    SumOfIdle(Run(w, run).threads);
  }

  /** Every step of every run leaves the session to itself or ends it properly: everything in it has
      returned, nothing is pending, it was revoked, and if anything was ever submitted the step is the
      worker's own successful report that it retired this very epoch. */
  lemma {:induction false} SessionsEndProperly(w: World, run: seq<Event>, i: nat, a: Action)
    requires Boots(w) && i < |w.threads|
    ensures var v := Run(w, run); var x := Step(v, i, a);
      v.s.active ==>
        if x.s.active then x.s.epoch == v.s.epoch && (v.s.everSubmitted ==> x.s.everSubmitted)
        else
          && Sum(Actors, v.threads) == 0 && !v.s.pending && v.s.revoked
          && (v.s.everSubmitted ==> a == RetiredCall(v.s.epoch, true) && v.threads[i].Idle? && v.s.retireQueued)
  {
    hide Step;
    RunSafe(w, run);
    StepSafe(Run(w, run), i, a);
  }
}
