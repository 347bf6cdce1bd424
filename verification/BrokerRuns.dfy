/**
 Every interleaving of the broker's locked sections. A thread is the place it has reached between
 two sections; one step lets one thread run one section (or one hook call), with arbitrary clock
 readings and hook answers.
 */
module BrokerRuns {
  import opened Broker

  /** What a nested call returns to. `hold` is a connection reference still owed. */
  datatype Cont = End | ThenDone(hold: bool) | ThenLeave | ThenKick

  datatype Pc =
    | Idle
    // recording_ble_command
    | CmdOpen(conn: nat, r: Request)
    | CmdGate(left: nat, conn: nat, r: Request, epoch: nat, deadline: nat, hold: bool)
    | CmdCommit(r: Request, epoch: nat, deadline: nat, hold: bool, permitted: bool)
    | CmdSubmitted(hold: bool)
    | CmdDone(hold: bool)
    | CmdRefused
    // complete
    | CompleteChecking(r: Request, p: Response, success: bool, more: bool)
    | CompleteEnding(r: Request, p: Response, success: bool, valid: bool, more: bool)
    // deliver
    | Delivering
    | DeliverCheck(left: nat, epoch: nat, conn: nat, p: Response, ok: bool)
    | DeliverNotify(epoch: nat, conn: nat, p: Response, ok: bool)
    | DeliverAfter(epoch: nat, conn: nat, p: Response, accepted: bool, full: bool)
    | DeliverEnding(epoch: nat, p: Response, accepted: bool, ok: bool, retry: bool)
    // schedule_delivery, leave, kick
    | Scheduling(k: Cont)
    | Enqueueing(k: Cont)
    | Leaving(k: Cont)
    | Kicking(k: Cont)
    | Dropping(k: Cont)
    | Retiring(epoch: nat, k: Cont)

  /** The record, the threads, whether the work item is queued, the connection references held and
      every epoch a session was opened with. */
  datatype World = World(s: State, threads: seq<Pc>, work: bool, refs: int, epochs: seq<nat>)

  datatype Notify = Accepted | NoBuffers | Failed

  datatype Action =
    | Init
    | Command(conn: nat, r: Request)
    | Complete(epoch: nat, sequence: nat, p: Response, success: bool, more: bool)
    | StreamReady(epoch: nat, sequence: nat, t: int)
    | Poll(ready: bool, t: int)
    | Disconnect(conn: nat)
    | RetiredCall(epoch: nat, ok: bool)
    | RunWork
    | Query(expire: bool, t: int)
    | Go(t: int, yes: bool, n: Notify)

  /** What one step of one thread does: the new record and place, references taken or given back,
      the work item, and whether a session was opened. */
  datatype Effect = Effect(s: State, pc: Pc, refs: int, work: bool, opens: bool)

  function Resume(k: Cont): Pc {
    match k
    case End => Idle
    case ThenDone(h) => CmdDone(h)
    case ThenLeave => Leaving(End)
    case ThenKick => Kicking(End)
  }

  /** An entry point called on an idle thread. */
  function Enter(s: State, work: bool, a: Action): Effect {
    match a
    case Init => Effect(Broker.Init(s), Idle, 0, work, false)
    case Command(conn, r) => Effect(s, CmdOpen(conn, r), 1, work, false)
    case Complete(epoch, sequence, p, success, more) =>
      if CompleteTaken(s, epoch, sequence)
      then Effect(CompleteBegin(s), CompleteChecking(s.request, p, success, more), 0, work, false)
      else Effect(s, Idle, 0, work, false)
    case StreamReady(epoch, sequence, t) =>
      Effect(Tick(s, t), if StreamStaged(Tick(s, t), epoch, sequence, t) then Scheduling(End) else Idle, 0, work, false)
    case Poll(ready, t) =>
      Effect(Polled(s, ready, t), if s.request.stream then Scheduling(ThenKick) else Kicking(End), 0, work, false)
    case Disconnect(conn) => Effect(Disconnected(s, conn), Kicking(End), 0, work, false)
    case RetiredCall(epoch, ok) =>
      Effect(Retired(s, epoch, ok), if RetireTaken(s, epoch) && ok then Dropping(End) else Idle, 0, work, false)
    case RunWork =>
      if work then Effect(Handler(s), if HandlerTaken(s) then Delivering else Idle, 0, false, false)
      else Effect(s, Idle, 0, work, false)
    case Query(expire, t) => Effect(if expire then Tick(s, t) else Clock(s, t), Idle, 0, work, false)
    case Go(_, _, _) => Effect(s, Idle, 0, work, false)
  }

  /** One section, or one hook call and the test paired with it, of the command path. */
  function CommandStep(s: State, pc: Pc, work: bool, t: int, yes: bool): Effect {
    match pc
    case CmdOpen(conn, r) =>
      var v := OpenVerdict(s, conn, r, t);
      var u := OpenState(s, conn, r, t);
      Effect(u, if v.Refused? || v.Busy? then CmdRefused else CmdGate(1, conn, r, u.epoch, u.deadline, v.Joined?),
             0, work, v.Opened?)
    case CmdGate(left, conn, r, epoch, deadline, hold) =>
      var good := yes && Live(s, t, epoch, conn);
      Effect(TickIf(yes, s, t),
             if good && left > 0 then CmdGate(left - 1, conn, r, epoch, deadline, hold)
             else CmdCommit(r, epoch, deadline, hold, good), 0, work, false)
    case CmdCommit(r, epoch, deadline, hold, permitted) =>
      Effect(Commit(s, r, epoch, deadline, permitted, t),
             if CommitOk(s, epoch, deadline, permitted, t) then CmdSubmitted(hold) else CmdDone(hold), 0, work, false)
    case CmdSubmitted(hold) =>
      Effect(Submitted(s, yes), if yes then Scheduling(ThenDone(hold)) else CmdDone(hold), 0, work, false)
    case CmdDone(hold) => Effect(s, Leaving(End), if hold then -1 else 0, work, false)
    case CmdRefused => Effect(s, Kicking(End), -1, work, false)
    case _ => Effect(s, pc, 0, work, false)
  }

  /** One section of completion or delivery. */
  function DeliveryStep(s: State, pc: Pc, work: bool, t: int, yes: bool, n: Notify): Effect {
    match pc
    case CompleteChecking(r, p, success, more) =>
      Effect(s, CompleteEnding(r, p, success, success && FrameOk(r, s.streamSent, s.streamTotal, p, more), more),
             0, work, false)
    case CompleteEnding(r, p, success, valid, more) =>
      Effect(CompleteEnd(s, r, p, success, valid, more), Scheduling(ThenLeave), 0, work, false)
    case Delivering =>
      Effect(DeliverStart(s),
             if Deliverable(s) then DeliverCheck(2, s.epoch, s.conn, s.response, s.terminalOk) else Leaving(End),
             0, work, false)
    case DeliverCheck(left, epoch, conn, p, ok) =>
      var asked := ok && (yes || left == 2);
      var good := asked && Live(s, t, epoch, conn);
      Effect(TickIf(asked, s, t),
             if good && left > 0 then DeliverCheck(left - 1, epoch, conn, p, ok)
             else DeliverNotify(epoch, conn, p, good), 0, work, false)
    case DeliverNotify(epoch, conn, p, ok) =>
      var accepted := ok && n.Accepted?;
      Effect(Notified(s, p, accepted),
             DeliverAfter(epoch, conn, p, accepted, ok && n.NoBuffers? && s.request.stream), 0, work, false)
    case DeliverAfter(epoch, conn, p, accepted, full) =>
      Effect(TickIf(accepted || full, s, t),
             DeliverEnding(epoch, p, accepted, accepted && Live(s, t, epoch, conn), full && Live(s, t, epoch, conn)),
             0, work, false)
    case DeliverEnding(epoch, p, _, ok, retry) =>
      Effect(DeliverEnd(s, epoch, p, ok, retry), Leaving(End), 0, work, false)
    case _ => Effect(s, pc, 0, work, false)
  }

  /** One section of schedule, leave or kick. */
  function TailStep(s: State, pc: Pc, work: bool, yes: bool): Effect {
    match pc
    case Scheduling(k) =>
      if ScheduleTaken(s) then Effect(Schedule(s), Enqueueing(k), 0, work, false)
        else Effect(s, Resume(k), 0, work, false)
    case Enqueueing(k) =>
      if yes then Effect(s, Leaving(k), 0, true, false) else Effect(ScheduleFailed(s), Leaving(k), 0, work, false)
    case Leaving(k) => Effect(Leave(s), Kicking(k), 0, work, false)
    case Kicking(k) =>
      Effect(Kick(s),
             if !KickReady(s) then Resume(k) else if s.everSubmitted then Retiring(s.epoch, k) else Dropping(k),
             0, work, false)
    case Dropping(k) => Effect(s, Resume(k), -1, work, false)
    case Retiring(epoch, k) =>
      if yes then Effect(s, Resume(k), 0, work, false)
        else Effect(RetireHookFailed(s, epoch), Resume(k), 0, work, false)
    case _ => Effect(s, pc, 0, work, false)
  }

  function Next(s: State, pc: Pc, work: bool, a: Action): Effect {
    if a.Go? then
      if InCommand(pc) then CommandStep(s, pc, work, a.t, a.yes)
      else if InDelivery(pc) then DeliveryStep(s, pc, work, a.t, a.yes, a.n)
      else TailStep(s, pc, work, a.yes)
    else if pc.Idle? then Enter(s, work, a)
    else Effect(s, pc, 0, work, false)
  }

  function Step(w: World, i: nat, a: Action): World
    requires i < |w.threads|
  {
    var e := Next(w.s, w.threads[i], w.work, a);
    World(e.s, w.threads[i := e.pc], e.work, w.refs + e.refs,
          if e.opens then w.epochs + [e.s.epoch] else w.epochs)
  }

  predicate InCommand(pc: Pc) {
    pc.CmdOpen? || pc.CmdGate? || pc.CmdCommit? || pc.CmdSubmitted? || pc.CmdDone? || pc.CmdRefused?
  }

  predicate InDelivery(pc: Pc) {
    pc.CompleteChecking? || pc.CompleteEnding? || pc.Delivering? || pc.DeliverCheck? || pc.DeliverNotify?
      || pc.DeliverAfter? || pc.DeliverEnding?
  }

  // ----- Counting what threads hold ------------------------------------------------------------------

  /** What a thread can be holding: actor counts, connection references, or the one slot of an
      exclusive phase. */
  datatype Measure = Actors | Refs | Completing | Submitting | Delivery | Starting | Early | Enqueuing

  function Pick(m: Measure, c: Tally): nat {
    match m
    case Actors => c.actors
    case Refs => c.refs
    case Completing => c.completing
    case Submitting => c.submitting
    case Delivery => c.delivery
    case Starting => c.starting
    case Early => c.early
    case Enqueuing => c.enqueuing
  }

  function One(b: bool): nat { if b then 1 else 0 }

  /** All counts at once. */
  datatype Tally = Tally(actors: nat, refs: nat, completing: nat, submitting: nat,
                         delivery: nat, starting: nat, early: nat, enqueuing: nat)

  /** A nested call keeps what its caller holds: `inside` actors more, `owed` references more. */
  function Nesting(k: Cont, inside: nat, owed: nat, enqueuing: nat): Tally {
    Tally(inside + One(k.ThenDone? || k.ThenLeave?), owed + One(k.ThenDone? && k.hold), 0, 0, 0, 0, 0, enqueuing)
  }

  /** What a thread holds at each place. */
  function Held(pc: Pc): Tally {
    match pc
    case Idle => Tally(0, 0, 0, 0, 0, 0, 0, 0)
    case CmdOpen(_, _) => Tally(0, 1, 0, 0, 0, 0, 0, 0)
    case CmdGate(_, _, _, _, _, h) => Tally(1, One(h), 0, 0, 0, 0, 1, 0)
    case CmdCommit(_, _, _, h, _) => Tally(1, One(h), 0, 0, 0, 0, 1, 0)
    case CmdSubmitted(h) => Tally(1, One(h), 0, 1, 0, 0, 0, 0)
    case CmdDone(h) => Tally(1, One(h), 0, 0, 0, 0, 0, 0)
    case CmdRefused => Tally(0, 1, 0, 0, 0, 0, 0, 0)
    case CompleteChecking(_, _, _, _) => Tally(1, 0, 1, 0, 0, 0, 0, 0)
    case CompleteEnding(_, _, _, _, _) => Tally(1, 0, 1, 0, 0, 0, 0, 0)
    case Delivering => Tally(1, 0, 0, 0, 0, 1, 0, 0)
    case DeliverCheck(_, _, _, _, _) => Tally(1, 0, 0, 0, 1, 0, 0, 0)
    case DeliverNotify(_, _, _, _) => Tally(1, 0, 0, 0, 1, 0, 0, 0)
    case DeliverAfter(_, _, _, _, _) => Tally(1, 0, 0, 0, 1, 0, 0, 0)
    case DeliverEnding(_, _, _, _, _) => Tally(1, 0, 0, 0, 1, 0, 0, 0)
    case Scheduling(k) => Nesting(k, 0, 0, 0)
    case Enqueueing(k) => Nesting(k, 1, 0, 1)
    case Leaving(k) => Nesting(k, 1, 0, 0)
    case Kicking(k) => Nesting(k, 0, 0, 0)
    case Dropping(k) => Nesting(k, 0, 1, 0)
    case Retiring(_, k) => Nesting(k, 0, 0, 0)
  }

  function Weight(m: Measure, pc: Pc): nat { Pick(m, Held(pc)) }

  function Sum(m: Measure, ts: seq<Pc>): nat {
    if ts == [] then 0 else Sum(m, ts[..|ts|-1]) + Weight(m, ts[|ts|-1])
  }

  lemma {:induction false} SumUpdate(m: Measure, ts: seq<Pc>, i: nat, pc: Pc)
    requires i < |ts|
    ensures Sum(m, ts[i := pc]) + Weight(m, ts[i]) == Sum(m, ts) + Weight(m, pc)
  {
    var us := ts[i := pc];
    if i == |ts| - 1 {
      assert us[..|us|-1] == ts[..|ts|-1];
    } else {
      assert us[..|us|-1] == ts[..|ts|-1][i := pc];
      SumUpdate(m, ts[..|ts|-1], i, pc);
    }
  }

  lemma {:induction false} SumAtLeast(m: Measure, ts: seq<Pc>, i: nat)
    requires i < |ts|
    ensures Sum(m, ts) >= Weight(m, ts[i])
  {
    if i < |ts| - 1 {
      SumAtLeast(m, ts[..|ts|-1], i);
    }
  }

  /** Every exclusive phase is run inside the actor count. */
  lemma {:induction false} SumBelowActors(m: Measure, ts: seq<Pc>)
    requires !m.Refs?
    ensures Sum(m, ts) <= Sum(Actors, ts)
  {
    if ts != [] {
      SumBelowActors(m, ts[..|ts|-1]);
    }
  }

  lemma {:induction false} SumOfTwo(m: Measure, ts: seq<Pc>, i: nat, j: nat)
    requires i < j < |ts|
    ensures Sum(m, ts) >= Weight(m, ts[i]) + Weight(m, ts[j])
  {
    if j == |ts| - 1 {
      SumAtLeast(m, ts[..|ts|-1], i);
    } else {
      SumOfTwo(m, ts[..|ts|-1], i, j);
    }
  }

  function Counts(ts: seq<Pc>): Tally {
    Tally(Sum(Actors, ts), Sum(Refs, ts), Sum(Completing, ts), Sum(Submitting, ts),
          Sum(Delivery, ts), Sum(Starting, ts), Sum(Early, ts), Sum(Enqueuing, ts))
  }

  /** The counts after one thread moved from holding `a` to holding `b`. */
  function Shift(c: Tally, a: Tally, b: Tally): Tally
    requires Covers(c, a)
  {
    Tally(c.actors - a.actors + b.actors, c.refs - a.refs + b.refs, c.completing - a.completing + b.completing,
          c.submitting - a.submitting + b.submitting, c.delivery - a.delivery + b.delivery,
          c.starting - a.starting + b.starting, c.early - a.early + b.early, c.enqueuing - a.enqueuing + b.enqueuing)
  }

  /** The counts include what one thread holds, and every phase is counted as an actor too. */
  predicate Covers(c: Tally, a: Tally) {
    && c.actors >= a.actors && c.refs >= a.refs
    && c.actors >= c.completing >= a.completing && c.actors >= c.submitting >= a.submitting
    && c.actors >= c.delivery >= a.delivery && c.actors >= c.starting >= a.starting
    && c.actors >= c.early >= a.early && c.actors >= c.enqueuing >= a.enqueuing
  }

  lemma MovedOne(m: Measure, ts: seq<Pc>, i: nat, pc: Pc)
    requires i < |ts|
    ensures Sum(m, ts[i := pc]) == Sum(m, ts) - Weight(m, ts[i]) + Weight(m, pc)
    ensures Sum(m, ts) >= Weight(m, ts[i]) && (!m.Refs? ==> Sum(m, ts) <= Sum(Actors, ts))
  {
    SumUpdate(m, ts, i, pc);
    SumAtLeast(m, ts, i);
    if !m.Refs? { SumBelowActors(m, ts); }
  }

  lemma Moved(ts: seq<Pc>, i: nat, pc: Pc)
    requires i < |ts|
    ensures Covers(Counts(ts), Held(ts[i]))
    ensures Counts(ts[i := pc]) == Shift(Counts(ts), Held(ts[i]), Held(pc))
  {
    hide Sum, Held;
    forall m: Measure
      ensures Sum(m, ts[i := pc]) == Sum(m, ts) - Weight(m, ts[i]) + Weight(m, pc)
      ensures Sum(m, ts) >= Weight(m, ts[i]) && (!m.Refs? ==> Sum(m, ts) <= Sum(Actors, ts))
    {
      MovedOne(m, ts, i, pc);
    }
  }
}
