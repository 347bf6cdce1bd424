/**
 The delivery work item. The handler's own check latches a fault when it is run with nothing to
 deliver; `recording_ble.c` reads as if that branch were unreachable. Under arbitrary interleaving it
 is reachable: between the section that takes the item off and the section that starts the delivery,
 another schedule may put the item on again. That needs the thread of the item to be preempted in
 the gap. This module proves that without that overlap the branch is never taken, and that there is
 no overlap where the start always directly follows the taking off.
 */
module BrokerDelivery {
  import opened Broker
  import opened BrokerRuns
  import opened BrokerSafety

  /** The work item, its flag and the threads around it agree. */
  predicate Orderly(s: State, c: Tally, work: bool) {
    && (work ==> s.queued) && c.enqueuing == One(s.queued && !work)
    && (s.queued ==> Deliverable(s) && c.starting == 0)
    && c.starting <= 1 && (c.starting > 0 ==> Deliverable(s) && !s.queued)
    && !s.causes.badDelivery
  }

  /** No schedule is taken while a handler stands between taking the item off and starting. */
  predicate Allowed(s: State, pc: Pc, a: Action, c: Tally) {
    a.Go? && pc.Scheduling? && ScheduleTaken(s) ==> c.starting == 0
  }

  /** A section that leaves the item, and what there is to deliver, alone. */
  predicate Same(s: State, u: State) {
    u.queued == s.queued && (Deliverable(s) ==> Deliverable(u)) && u.causes.badDelivery == s.causes.badDelivery
  }

  lemma SameTick(on: bool, s: State, t: int)
    ensures Same(s, TickIf(on, s, t))
  {
  }

  lemma SameClock(s: State, t: int)
    ensures Same(s, Clock(s, t))
  {
  }

  lemma SamePolled(s: State, ready: bool, t: int)
    ensures Same(s, Polled(s, ready, t))
  {
  }

  lemma SameOpen(s: State, conn: nat, r: Request, t: int)
    ensures Same(s, OpenState(s, conn, r, t))
  {
    SameTick(s.initialized && !s.fault, s, t);
  }

  lemma SameCommit(s: State, r: Request, epoch: nat, deadline: nat, permitted: bool, t: int, c: Tally, refs: int,
      n: nat)
    requires Core(s, c, refs, n) && c.early >= 1
    ensures Same(s, Commit(s, r, epoch, deadline, permitted, t))
  {
  }

  lemma SameSubmitted(s: State, accepted: bool, c: Tally, refs: int, n: nat)
    requires Core(s, c, refs, n) && c.submitting >= 1
    ensures Same(s, Submitted(s, accepted))
  {
  }

  lemma SameComplete(s: State, epoch: nat, sequence: nat)
    requires CompleteTaken(s, epoch, sequence)
    ensures Same(s, CompleteBegin(s))
  {
  }

  lemma SameCompleteEnd(s: State, r: Request, p: Response, success: bool, valid: bool, more: bool, c: Tally, refs: int,
      n: nat)
    requires Core(s, c, refs, n) && c.completing >= 1
    ensures Same(s, CompleteEnd(s, r, p, success, valid, more))
  {
  }

  lemma SameDeliverEnd(s: State, epoch: nat, p: Response, ok: bool, retry: bool, c: Tally, refs: int, n: nat)
    requires Core(s, c, refs, n) && c.delivery >= 1
    ensures Same(s, DeliverEnd(s, epoch, p, ok, retry))
  {
  }

  lemma SameKick(s: State, c: Tally, work: bool)
    requires Orderly(s, c, work)
    ensures Same(s, Kick(s))
  {
  }

  lemma SameRetired(s: State, epoch: nat, ok: bool, c: Tally, work: bool)
    requires Orderly(s, c, work)
    ensures Same(s, Retired(s, epoch, ok))
  {
  }

  lemma SameLeave(s: State)
    ensures Same(s, Leave(s))
  {
  }

  lemma SameHookFailed(s: State, epoch: nat)
    ensures Same(s, RetireHookFailed(s, epoch))
  {
  }

  lemma SameOrderly(s: State, u: State, c: Tally, d: Tally, work: bool)
    requires Orderly(s, c, work) && Same(s, u) && d.starting == c.starting && d.enqueuing == c.enqueuing
    ensures Orderly(u, d, work)
  {
  }

  lemma SameInit(s: State)
    ensures Same(s, Broker.Init(s))
  {
  }

  lemma SameDisconnected(s: State, conn: nat)
    ensures Same(s, Disconnected(s, conn))
  {
  }

  lemma EnterOrderly(s: State, work: bool, a: Action, e: Effect, c: Tally, d: Tally)
    requires Orderly(s, c, work) && e == Enter(s, work, a)
    requires Covers(c, Held(Idle)) && d == Shift(c, Held(Idle), Held(e.pc))
    ensures Orderly(e.s, d, e.work)
  {
    hide Same, Broker.Retired, Broker.Polled, Broker.TickIf, Broker.Clock, Broker.CompleteBegin;
    match a
    case Init => SameInit(s); SameOrderly(s, e.s, c, d, work);
    case Command(_, _) =>
    case Complete(epoch, sequence, _, _, _) =>
      if CompleteTaken(s, epoch, sequence) { SameComplete(s, epoch, sequence); SameOrderly(s, e.s, c, d, work); }
    case StreamReady(_, _, t) => SameTick(true, s, t); SameOrderly(s, e.s, c, d, work);
    case Poll(ready, t) => SamePolled(s, ready, t); SameOrderly(s, e.s, c, d, work);
    case Disconnect(conn) => SameDisconnected(s, conn); SameOrderly(s, e.s, c, d, work);
    case RetiredCall(epoch, ok) => SameRetired(s, epoch, ok, c, work); SameOrderly(s, e.s, c, d, work);
    case RunWork =>
    case Query(expire, t) => SameTick(true, s, t); SameClock(s, t); SameOrderly(s, e.s, c, d, work);
    case Go(_, _, _) =>
  }

  lemma CommandHolds(s: State, pc: Pc, work: bool, t: int, yes: bool, e: Effect)
    requires InCommand(pc) && e == CommandStep(s, pc, work, t, yes)
    ensures e.work == work && Held(e.pc).starting == Held(pc).starting && Held(e.pc).enqueuing == Held(pc).enqueuing
    ensures (pc.CmdCommit? ==> Held(pc).early == 1) && (pc.CmdSubmitted? ==> Held(pc).submitting == 1)
  {
    hide Broker.TickIf, Broker.OpenState, Broker.OpenVerdict, Broker.Commit, Broker.CommitOk, Broker.Submitted,
         Broker.Live;
  }

  lemma CommandOrderly(s: State, pc: Pc, work: bool, t: int, yes: bool, e: Effect, c: Tally, d: Tally, refs: int,
      n: nat)
    requires InCommand(pc) && Ready(s, pc, c, refs, n) && Orderly(s, c, work) && e == CommandStep(s, pc, work, t, yes)
    requires d == Shift(c, Held(pc), Held(e.pc))
    ensures Orderly(e.s, d, e.work)
  {
    hide Same, Core, Orderly, Held, Broker.TickIf, Broker.OpenState, Broker.OpenVerdict, Broker.Commit, Broker.CommitOk,
         Broker.Submitted, Broker.Live;
    CommandHolds(s, pc, work, t, yes, e);
    match pc
    case CmdOpen(conn, r) => SameOpen(s, conn, r, t); SameOrderly(s, e.s, c, d, work);
    case CmdGate(_, _, _, _, _, _) => SameTick(yes, s, t); SameOrderly(s, e.s, c, d, work);
    case CmdCommit(r, epoch, deadline, _, permitted) =>
      SameCommit(s, r, epoch, deadline, permitted, t, c, refs, n); SameOrderly(s, e.s, c, d, work);
    case CmdSubmitted(_) => SameSubmitted(s, yes, c, refs, n); SameOrderly(s, e.s, c, d, work);
    case CmdDone(_) => SameItself(s); SameOrderly(s, e.s, c, d, work);
    case CmdRefused => SameItself(s); SameOrderly(s, e.s, c, d, work);
  }

  lemma SameItself(s: State)
    ensures Same(s, s)
  {
  }

  lemma SameNotified(s: State, p: Response, accepted: bool)
    ensures Same(s, Notified(s, p, accepted))
  {
  }

  /** A handler that got this far always finds something to deliver. */
  lemma StartOrderly(s: State, c: Tally, d: Tally, work: bool)
    requires Orderly(s, c, work) && c.starting >= 1 && d.starting == c.starting - 1 && d.enqueuing == c.enqueuing
    ensures Orderly(DeliverStart(s), d, work) && Deliverable(s)
  {
  }

  lemma DeliveryHolds(s: State, pc: Pc, work: bool, t: int, yes: bool, m: Notify, e: Effect)
    requires InDelivery(pc) && e == DeliveryStep(s, pc, work, t, yes, m)
    ensures e.work == work && Held(pc).enqueuing == Held(e.pc).enqueuing
    ensures Held(pc).starting == Held(e.pc).starting + One(pc.Delivering?)
  {
    hide Broker.TickIf, Broker.Live, Broker.CompleteEnd, Broker.DeliverStart, Broker.DeliverEnd, Broker.FrameOk;
  }

  lemma DeliveryOrderly(s: State, pc: Pc, work: bool, t: int, yes: bool, m: Notify, e: Effect, c: Tally, d: Tally,
      refs: int, n: nat)
    requires InDelivery(pc) && Ready(s, pc, c, refs, n) && Orderly(s, c, work)
      && e == DeliveryStep(s, pc, work, t, yes, m)
    requires d == Shift(c, Held(pc), Held(e.pc))
    ensures Orderly(e.s, d, e.work)
  {
    hide Same, Core, Orderly, Broker.TickIf, Broker.Live, Broker.CompleteEnd, Broker.DeliverStart, Broker.DeliverEnd,
         Broker.FrameOk, Held;
    DeliveryHolds(s, pc, work, t, yes, m, e);
    if pc.Delivering? {
      DeliveringHolds(pc);
      StartOrderly(s, c, d, work);
    } else {
      DeliverySame(s, pc, work, t, yes, m, e, c, refs, n);
      SameOrderly(s, e.s, c, d, work);
    }
  }

  lemma DeliveringHolds(pc: Pc)
    ensures Held(pc).starting == One(pc.Delivering?)
  {
  }

  lemma CompletingSame(s: State, pc: Pc, work: bool, t: int, yes: bool, m: Notify, e: Effect, c: Tally, refs: int,
      n: nat)
    requires (pc.CompleteChecking? || pc.CompleteEnding?) && Ready(s, pc, c, refs, n)
      && e == DeliveryStep(s, pc, work, t, yes, m)
    ensures Same(s, e.s)
  {
    hide Same, Core, Broker.CompleteEnd, Broker.FrameOk;
    if pc.CompleteEnding? {
      SameCompleteEnd(s, pc.r, pc.p, pc.success, pc.valid, pc.more, c, refs, n);
    } else {
      SameItself(s);
    }
  }

  lemma CheckSame(s: State, pc: Pc, work: bool, t: int, yes: bool, m: Notify, e: Effect)
    requires pc.DeliverCheck? && e == DeliveryStep(s, pc, work, t, yes, m)
    ensures Same(s, e.s)
  {
    hide Same, Broker.TickIf, Broker.Live;
    SameTick(pc.ok && (yes || pc.left == 2), s, t);
  }

  lemma NotifySame(s: State, pc: Pc, work: bool, t: int, yes: bool, m: Notify, e: Effect)
    requires pc.DeliverNotify? && e == DeliveryStep(s, pc, work, t, yes, m)
    ensures Same(s, e.s)
  {
    hide Same, Broker.Notified;
    SameNotified(s, pc.p, pc.ok && m.Accepted?);
  }

  lemma AfterSame(s: State, pc: Pc, work: bool, t: int, yes: bool, m: Notify, e: Effect)
    requires pc.DeliverAfter? && e == DeliveryStep(s, pc, work, t, yes, m)
    ensures Same(s, e.s)
  {
    hide Same, Broker.TickIf, Broker.Live;
    SameTick(pc.accepted || pc.full, s, t);
  }

  lemma DeliverySame(s: State, pc: Pc, work: bool, t: int, yes: bool, m: Notify, e: Effect, c: Tally, refs: int, n: nat)
    requires InDelivery(pc) && !pc.Delivering? && Ready(s, pc, c, refs, n) && e == DeliveryStep(s, pc, work, t, yes, m)
    ensures Same(s, e.s)
  {
    hide Same, Core, Broker.TickIf, Broker.Live, Broker.CompleteEnd, Broker.DeliverEnd, Broker.FrameOk;
    if pc.CompleteChecking? || pc.CompleteEnding? {
      CompletingSame(s, pc, work, t, yes, m, e, c, refs, n);
    } else if pc.DeliverEnding? {
      SameDeliverEnd(s, pc.epoch, pc.p, pc.ok, pc.retry, c, refs, n);
    } else if pc.DeliverCheck? {
      CheckSame(s, pc, work, t, yes, m, e);
    } else if pc.DeliverNotify? {
      NotifySame(s, pc, work, t, yes, m, e);
    } else {
      AfterSame(s, pc, work, t, yes, m, e);
    }
  }

  lemma ScheduleOrderly(s: State, c: Tally, d: Tally, work: bool)
    requires Orderly(s, c, work) && ScheduleTaken(s) && c.starting == 0 && d.starting == 0
      && d.enqueuing == c.enqueuing + 1
    ensures Orderly(Schedule(s), d, work)
  {
  }

  lemma EnqueueOrderly(s: State, c: Tally, d: Tally, work: bool)
    requires Orderly(s, c, work) && c.enqueuing >= 1 && d.enqueuing == c.enqueuing - 1 && d.starting == c.starting
    ensures Orderly(s, d, true) && Orderly(ScheduleFailed(s), d, work)
  {
  }

  lemma QueueOrderly(s: State, pc: Pc, work: bool, yes: bool, e: Effect, c: Tally, d: Tally)
    requires (pc.Scheduling? || pc.Enqueueing?) && Covers(c, Held(pc)) && Orderly(s, c, work)
      && e == TailStep(s, pc, work, yes)
    requires d == Shift(c, Held(pc), Held(e.pc)) && (pc.Scheduling? && ScheduleTaken(s) ==> c.starting == 0)
    ensures Orderly(e.s, d, e.work)
  {
    hide Same, Orderly, Broker.Schedule, Broker.ScheduleFailed;
    ResumeHeld(s, pc.k);
    if pc.Enqueueing? {
      EnqueueOrderly(s, c, d, work);
    } else if ScheduleTaken(s) {
      ScheduleOrderly(s, c, d, work);
    } else {
      SameItself(s);
      SameOrderly(s, e.s, c, d, work);
    }
  }

  /** Leaving, kicking and retiring hold no place in the delivery. */
  lemma TailHolds(s: State, pc: Pc, work: bool, yes: bool, e: Effect)
    requires (pc.Leaving? || pc.Kicking? || pc.Dropping? || pc.Retiring?) && e == TailStep(s, pc, work, yes)
    ensures Held(pc).starting == Held(e.pc).starting && Held(pc).enqueuing == Held(e.pc).enqueuing && e.work == work
  {
    hide Broker.Leave, Broker.Kick, Broker.KickReady, Broker.RetireHookFailed, Resume;
    ResumeHeld(s, pc.k);
  }

  lemma TailOrderly(s: State, pc: Pc, work: bool, yes: bool, e: Effect, c: Tally, d: Tally)
    requires (pc.Leaving? || pc.Kicking? || pc.Dropping? || pc.Retiring?) && e == TailStep(s, pc, work, yes)
    requires Covers(c, Held(pc)) && Orderly(s, c, work) && d == Shift(c, Held(pc), Held(e.pc))
    ensures Orderly(e.s, d, e.work)
  {
    hide Same, Orderly, Held, Broker.Leave, Broker.Kick, Broker.RetireHookFailed;
    TailHolds(s, pc, work, yes, e);
    match pc
    case Leaving(_) => SameLeave(s); SameOrderly(s, e.s, c, d, work);
    case Kicking(_) => SameKick(s, c, work); SameOrderly(s, e.s, c, d, work);
    case Dropping(_) => SameItself(s); SameOrderly(s, e.s, c, d, work);
    case Retiring(epoch, _) => SameItself(s); SameHookFailed(s, epoch); SameOrderly(s, e.s, c, d, work);
  }

  lemma NextOrderly(s: State, pc: Pc, work: bool, a: Action, e: Effect, c: Tally, d: Tally, refs: int, n: nat)
    requires Ready(s, pc, c, refs, n) && Orderly(s, c, work) && e == Next(s, pc, work, a) && Allowed(s, pc, a, c)
    requires d == Shift(c, Held(pc), Held(e.pc))
    ensures Orderly(e.s, d, e.work)
  {
    hide Core, Orderly, Held, Enter, CommandStep, DeliveryStep;
    if a.Go? && !pc.Idle? {
      if InCommand(pc) {
        CommandOrderly(s, pc, work, a.t, a.yes, e, c, d, refs, n);
      } else if InDelivery(pc) {
        DeliveryOrderly(s, pc, work, a.t, a.yes, a.n, e, c, d, refs, n);
      } else if pc.Scheduling? || pc.Enqueueing? {
        QueueOrderly(s, pc, work, a.yes, e, c, d);
      } else {
        TailOrderly(s, pc, work, a.yes, e, c, d);
      }
    } else if pc.Idle? && !a.Go? {
      EnterOrderly(s, work, a, e, c, d);
    } else {
      SameItself(s);
      SameOrderly(s, e.s, c, d, work);
    }
  }

  // ----- Whole runs -----------------------------------------------------------------------------------

  /** The run never takes a schedule in the gap. */
  predicate Cooperative(w: World, run: seq<Event>) {
    if run == [] then true
    else
      var v := Run(w, run[..|run| - 1]);
      var e := run[|run| - 1];
      && Cooperative(w, run[..|run| - 1])
      && (e.thread < |v.threads| ==> Allowed(v.s, v.threads[e.thread], e.action, Counts(v.threads)))
  }

  lemma {:induction false} RunOrderly(w: World, run: seq<Event>)
    requires Boots(w) && Cooperative(w, run)
    ensures var v := Run(w, run); Orderly(v.s, Counts(v.threads), v.work)
  {
    hide Core, Next, Shift;
    if run == [] {
      SumOfIdle(w.threads);
    } else {
      var v := Run(w, run[..|run| - 1]);
      var e := run[|run| - 1];
      RunOrderly(w, run[..|run| - 1]);
      RunSafe(w, run[..|run| - 1]);
      if e.thread < |v.threads| {
        var f := Next(v.s, v.threads[e.thread], v.work, e.action);
        Moved(v.threads, e.thread, f.pc);
        NextOrderly(v.s, v.threads[e.thread], v.work, e.action, f, Counts(v.threads),
                    Counts(v.threads[e.thread := f.pc]), v.refs, |v.epochs|);
      }
    }
  }

  /** In a cooperative run the bad-delivery fault is never latched, a queued item always has something
      to deliver, and exactly the item that is queued will be run. */
  lemma {:induction false} NoBadDelivery(w: World, run: seq<Event>)
    requires Boots(w) && Cooperative(w, run)
    ensures var v := Run(w, run);
      && !v.s.causes.badDelivery && (v.work ==> v.s.queued) && (v.s.queued ==> Deliverable(v.s))
      && Sum(Enqueuing, v.threads) == One(v.s.queued && !v.work)
  {
    RunOrderly(w, run);
  }

  // ----- A work queue that is not preempted in the gap ----------------------------------------------------

  /** Event `k` of the run takes the item off for a thread that will deliver. */
  predicate TakesOff(w: World, run: seq<Event>, k: nat)
    requires k < |run|
  {
    var v := Run(w, run[..k]);
    var e := run[k];
    e.thread < |v.threads| && v.threads[e.thread].Idle? && e.action.RunWork? && v.work && HandlerTaken(v.s)
  }

  /** Whoever takes the item off starts the delivery before anybody else runs, as the item's thread does when it
      cannot be preempted between the two sections. */
  predicate Prompt(w: World, run: seq<Event>) {
    forall k :: 0 < k < |run| && TakesOff(w, run, k - 1) ==> run[k].thread == run[k - 1].thread && run[k].action.Go?
  }

  lemma PromptBefore(w: World, run: seq<Event>)
    requires run != [] && Prompt(w, run)
    ensures Prompt(w, run[..|run| - 1])
    ensures forall k: nat :: k < |run| - 1 ==> TakesOff(w, run[..|run| - 1], k) == TakesOff(w, run, k)
  {
    hide Run, Broker.HandlerTaken;
    var p := run[..|run| - 1];
    forall k: nat | k < |p| ensures TakesOff(w, p, k) == TakesOff(w, run, k) { assert p[..k] == run[..k]; }
    forall k | 0 < k < |p| && TakesOff(w, p, k - 1)
      ensures p[k].thread == p[k - 1].thread && p[k].action.Go?
    {
      assert TakesOff(w, run, k - 1);
    }
  }

  lemma CommandOutside(s: State, pc: Pc, work: bool, t: int, yes: bool)
    requires InCommand(pc)
    ensures !CommandStep(s, pc, work, t, yes).pc.Delivering?
  {
    hide Broker.OpenVerdict, Broker.OpenState, Broker.Live, Broker.TickIf, Broker.Commit, Broker.CommitOk,
         Broker.Submitted;
  }

  lemma DeliveryOutside(s: State, pc: Pc, work: bool, t: int, yes: bool, n: Notify)
    requires InDelivery(pc)
    ensures !DeliveryStep(s, pc, work, t, yes, n).pc.Delivering?
  {
    hide Broker.Live, Broker.TickIf, Broker.FrameOk, Broker.CompleteEnd, Broker.DeliverEnd, Broker.DeliverStart,
         Broker.Deliverable;
  }

  lemma TailOutside(s: State, pc: Pc, work: bool, yes: bool)
    requires !InCommand(pc) && !InDelivery(pc)
    ensures !TailStep(s, pc, work, yes).pc.Delivering?
  {
    hide Broker.Kick, Broker.KickReady, Broker.Leave, Broker.Schedule, Broker.ScheduleFailed, Broker.ScheduleTaken,
         Broker.RetireHookFailed, Resume;
    match pc
    case Scheduling(k) => ResumesOutside(k);
    case Kicking(k) => ResumesOutside(k);
    case Dropping(k) => ResumesOutside(k);
    case Retiring(_, k) => ResumesOutside(k);
    case _ =>
  }

  lemma EnterOutside(s: State, work: bool, a: Action)
    ensures Enter(s, work, a).pc.Delivering? <==> a.RunWork? && work && HandlerTaken(s)
  {
    hide Broker.Tick, Broker.StreamStaged, Broker.Polled, Broker.Disconnected, Broker.Retired, Broker.RetireTaken,
         Broker.Handler, Broker.HandlerTaken, Broker.CompleteTaken, Broker.Clock, Broker.Init;
  }

  /** Only taking the item off brings a thread to the gap, and its next section leaves it. */
  lemma EntersGap(s: State, pc: Pc, work: bool, a: Action)
    ensures Next(s, pc, work, a).pc.Delivering? <==>
      (pc.Delivering? && !a.Go?) || (pc.Idle? && a.RunWork? && work && HandlerTaken(s))
  {
    hide Enter, CommandStep, DeliveryStep, TailStep, Broker.HandlerTaken;
    if a.Go? {
      if InCommand(pc) {
        CommandOutside(s, pc, work, a.t, a.yes);
      } else if InDelivery(pc) {
        DeliveryOutside(s, pc, work, a.t, a.yes, a.n);
      } else {
        TailOutside(s, pc, work, a.yes);
      }
    } else if pc.Idle? {
      EnterOutside(s, work, a);
    }
  }

  lemma ResumesOutside(k: Cont)
    ensures !Resume(k).Delivering?
  {
  }

  /** In a prompt run at most one thread is in the gap, and only right after it took the item off. */
  predicate GapIsBrief(w: World, run: seq<Event>) {
    var n := Sum(Starting, Run(w, run).threads);
    n == 0 || (n == 1 && run != [] && TakesOff(w, run, |run| - 1)
      && Run(w, run).threads[run[|run| - 1].thread].Delivering?)
  }

  lemma StartingIs(pc: Pc)
    ensures Weight(Starting, pc) == One(pc.Delivering?)
  {
  }

  lemma {:induction false} PromptGap(w: World, run: seq<Event>)
    requires Boots(w) && Prompt(w, run)
    ensures GapIsBrief(w, run) && Cooperative(w, run)
  {
    hide Next, Weight, Sum, Broker.HandlerTaken, Prompt;
    if run == [] {
      SumOfIdle(w.threads);
    } else {
      var p, e := run[..|run| - 1], run[|run| - 1];
      var v := Run(w, p);
      PromptBefore(w, run);
      PromptGap(w, p);
      if Sum(Starting, v.threads) != 0 { StartsNext(w, run, p); }
      if e.thread < |v.threads| {
        var pc := v.threads[e.thread];
        var f := Next(v.s, pc, v.work, e.action);
        EntersGap(v.s, pc, v.work, e.action);
        StartingIs(pc);
        StartingIs(f.pc);
        SumUpdate(Starting, v.threads, e.thread, f.pc);
      }
    }
  }

  /** After the item was taken off, the same thread starts. */
  lemma StartsNext(w: World, run: seq<Event>, p: seq<Event>)
    requires run != [] && p == run[..|run| - 1] && p != [] && TakesOff(w, p, |p| - 1) && Prompt(w, run)
    ensures run[|run| - 1].thread == p[|p| - 1].thread && run[|run| - 1].action.Go?
  {
    hide Run, Broker.HandlerTaken;
    assert p[..|p| - 1] == run[..|run| - 2];
    assert TakesOff(w, run, |run| - 2);
  }

  /** So where nobody can run between the two sections, as on a cooperative work queue whose handler never blocks
      there, the fault is not latched. */
  lemma {:induction false} PromptNeverFaults(w: World, run: seq<Event>)
    requires Boots(w) && Prompt(w, run)
    ensures Cooperative(w, run) && !Run(w, run).s.causes.badDelivery
  {
    PromptGap(w, run);
    NoBadDelivery(w, run);
  }
}
