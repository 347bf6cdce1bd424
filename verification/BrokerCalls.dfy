/**
 The broker's entry points as whole calls: which section follows which, where hooks are asked and where
 references are taken and given back. Between any two sections the record is whatever the other threads made
 of it. Every call is shown to walk through the places that `BrokerRuns` gives a thread, section by section.
 */
module BrokerCalls {
  import opened Broker
  import opened BrokerRuns
  import opened BrokerSafety
  import opened BrokerMachine

  datatype Rc = OK | BUSY | REFUSED | FAULT

  /** One section as it ran: where the thread stood, what it found, what came out and the references it moved. */
  datatype Move = Move(before: State, pc: Pc, work: bool, action: Action, after: State, refs: int)

  predicate Stepped(m: Move, to: Pc) {
    var e := Next(m.before, m.pc, m.work, m.action);
    m.after == e.s && m.refs == e.refs && to == e.pc
  }

  /** A thread that began idle, made these moves and stands at `pc`. */
  ghost predicate Chained(trace: seq<Move>, pc: Pc) {
    if trace == [] then pc.Idle?
    else Chained(trace[..|trace| - 1], trace[|trace| - 1].pc) && Stepped(trace[|trace| - 1], pc)
  }

  /** The references the moves took, less those they gave back. */
  ghost function Owed(trace: seq<Move>): int {
    if trace == [] then 0 else Owed(trace[..|trace| - 1]) + trace[|trace| - 1].refs
  }

  /** How many submissions were accepted and how many bad frames were met. */
  datatype Score = Score(accepted: nat, bad: nat)

  function Scored(n: Score, pc: Pc, a: Action): Score {
    n.(accepted := n.accepted + One(pc.CmdSubmitted? && a.Go? && a.yes),
       bad := n.bad + One(pc.CompleteEnding? && pc.success && !pc.valid))
  }

  ghost function Tallied(trace: seq<Move>): Score {
    if trace == [] then Score(0, 0)
    else var m := trace[|trace| - 1]; Scored(Tallied(trace[..|trace| - 1]), m.pc, m.action)
  }

  lemma Added(trace: seq<Move>, m: Move, to: Pc)
    requires Chained(trace, m.pc) && Stepped(m, to)
    ensures Chained(trace + [m], to) && Owed(trace + [m]) == Owed(trace) + m.refs
    ensures Tallied(trace + [m]) == Scored(Tallied(trace), m.pc, m.action)
  {
    hide Stepped, Scored;
    assert (trace + [m])[..|trace|] == trace;
  }

  /** A session's epoch is never zero, so zero can say that there is nothing to retire. */
  predicate Named(s: State) { s.active ==> s.epoch > 0 }

  lemma CommandNamed(s: State, pc: Pc, work: bool, t: int, yes: bool)
    requires Named(s)
    ensures Named(CommandStep(s, pc, work, t, yes).s)
  {
    hide Broker.OpenVerdict, Broker.CommitOk, Broker.Live;
  }

  lemma DeliveryNamed(s: State, pc: Pc, work: bool, t: int, yes: bool, n: Notify)
    requires Named(s)
    ensures Named(DeliveryStep(s, pc, work, t, yes, n).s)
  {
    hide Broker.FrameOk, Broker.Deliverable, Broker.Live;
  }

  lemma TailNamed(s: State, pc: Pc, work: bool, yes: bool)
    requires Named(s)
    ensures Named(TailStep(s, pc, work, yes).s)
  {
    hide Broker.KickReady, Broker.Deliverable, Resume;
  }

  /** The session is the one it was. */
  predicate Kept(s: State, u: State) { u.active == s.active && u.epoch == s.epoch }

  lemma TickKept(on: bool, s: State, t: int)
    ensures Kept(s, TickIf(on, s, t))
  {
  }

  lemma ClockKept(s: State, t: int)
    ensures Kept(s, Clock(s, t))
  {
  }

  lemma PolledKept(s: State, ready: bool, t: int)
    ensures Kept(s, Polled(s, ready, t))
  {
    hide Broker.TickIf;
    TickKept(s.initialized, s, t);
  }

  lemma RetiredNamed(s: State, epoch: nat, ok: bool)
    requires Named(s)
    ensures Named(Broker.Retired(s, epoch, ok))
  {
    hide Broker.RetireTaken;
  }

  lemma HandlerKept(s: State)
    ensures Kept(s, Handler(s))
  {
    hide Broker.HandlerTaken;
  }

  lemma InitKept(s: State)
    ensures Kept(s, Broker.Init(s))
  {
  }

  lemma DisconnectedKept(s: State, conn: nat)
    ensures Kept(s, Disconnected(s, conn))
  {
  }

  lemma CompletingKept(s: State)
    ensures Kept(s, CompleteBegin(s))
  {
  }

  lemma EnterNamed(s: State, work: bool, a: Action)
    requires Named(s)
    ensures Named(Enter(s, work, a).s)
  {
    hide Broker.RetireTaken, Broker.StreamStaged, Broker.CompleteTaken, Broker.HandlerTaken, Broker.Retired,
         Broker.Polled, Broker.TickIf, Broker.Clock, Broker.Init, Broker.Disconnected, Broker.CompleteBegin,
         Broker.Handler;
    match a
    case Init => InitKept(s);
    case Command(_, _) =>
    case Complete(_, _, _, _, _) => CompletingKept(s);
    case StreamReady(_, _, t) => TickKept(true, s, t);
    case Poll(ready, t) => PolledKept(s, ready, t);
    case Disconnect(conn) => DisconnectedKept(s, conn);
    case RetiredCall(epoch, ok) => RetiredNamed(s, epoch, ok);
    case RunWork => HandlerKept(s);
    case Query(_, t) => TickKept(true, s, t); ClockKept(s, t);
    case Go(_, _, _) =>
  }

  lemma NextNamed(s: State, pc: Pc, work: bool, a: Action)
    requires Named(s)
    ensures Named(Next(s, pc, work, a).s)
  {
    hide Named, Enter, CommandStep, DeliveryStep, TailStep;
    if a.Go? {
      CommandNamed(s, pc, work, a.t, a.yes);
      DeliveryNamed(s, pc, work, a.t, a.yes, a.n);
      TailNamed(s, pc, work, a.yes);
    } else {
      EnterNamed(s, work, a);
    }
  }

  lemma {:induction false} EpochsAreNamed(w: World, run: seq<Event>)
    requires Boots(w)
    ensures Named(Run(w, run).s)
  {
    hide Next, Named;
    if run == [] {
      BootsNamed(w);
    } else {
      var v := Run(w, run[..|run| - 1]);
      var e := run[|run| - 1];
      EpochsAreNamed(w, run[..|run| - 1]);
      if e.thread < |v.threads| { NextNamed(v.s, v.threads[e.thread], v.work, e.action); }
    }
  }

  lemma BootsNamed(w: World)
    requires Boots(w)
    ensures Named(w.s)
  {
  }

  class BrokerThread {
    const core: RecordingBroker
    /** Connection references taken less those given back. */
    var refs: int
    ghost var pc: Pc
    ghost var trace: seq<Move>

    constructor (core: RecordingBroker)
      ensures this.core == core && Valid() && pc.Idle? && trace == []
    {
      this.core := core;
      refs, pc, trace := 0, Idle, [];
    }

    ghost predicate Valid()
      reads this
    {
      Chained(trace, pc) && refs == Owed(trace)
    }

    /** Any number of sections of other threads. */
    method Others()
      modifies core
      ensures Named(core.broker)
    {
      var s: State := *;
      core.broker := s;
      if s.active && s.epoch == 0 { core.broker := s.(active := false); }
    }

    /** The section just run was the one that the thread's place and the answers call for. */
    ghost method Note(before: State, work: bool, a: Action, was: int)
      requires Chained(trace, pc) && was == Owed(trace)
      requires Next(before, pc, work, a).s == core.broker && refs == was + Next(before, pc, work, a).refs
      modifies this`pc, this`trace
      ensures Valid() && pc == Next(before, old(pc), work, a).pc
      ensures trace == old(trace) + [Move(before, old(pc), work, a, core.broker, refs - was)]
      ensures Tallied(trace) == Scored(Tallied(old(trace)), old(pc), a)
    {
      hide Next, Chained, Owed, Tallied, Scored;
      var m := Move(before, pc, work, a, core.broker, refs - was);
      Added(trace, m, Next(before, pc, work, a).pc);
      pc := Next(before, pc, work, a).pc;
      trace := trace + [m];
    }

    // ----- kick, leave, schedule_delivery -----------------------------------------------------------------

    method KickStep(ghost k: Cont) returns (drop: bool, retire: nat)
      requires Valid() && pc == Kicking(k)
      modifies this`pc, this`trace, core
      ensures Valid() && old(trace) <= trace && Tallied(trace) == Tallied(old(trace))
      ensures pc == if drop then Dropping(k) else if retire != 0 then Retiring(retire, k) else Resume(k)
    {
      hide Enter, CommandStep, DeliveryStep, Chained, Owed, Tallied, Broker.Clear, Broker.Kick, Resume;
      Others();
      ghost var s := core.broker;
      drop, retire := core.KickSection();
      Note(s, false, Go(0, false, Accepted), refs);
    }

    /** The retire hook and its answer. */
    method RetireStep(epoch: nat, ghost k: Cont)
      requires Valid() && pc == Retiring(epoch, k)
      modifies this`pc, this`trace, core
      ensures Valid() && pc == Resume(k) && old(trace) <= trace && Tallied(trace) == Tallied(old(trace))
    {
      hide Enter, CommandStep, DeliveryStep, Chained, Owed, Tallied, Resume;
      var taken: bool := *;
      Others();
      ghost var s := core.broker;
      if !taken { core.RetireFailedSection(epoch); }
      Note(s, false, Go(0, taken, Accepted), refs);
    }

    /** The session's own reference goes back. */
    method DropStep(ghost k: Cont)
      requires Valid() && pc == Dropping(k)
      modifies this`refs, this`pc, this`trace, core
      ensures Valid() && pc == Resume(k) && old(trace) <= trace && Tallied(trace) == Tallied(old(trace))
    {
      hide Enter, CommandStep, DeliveryStep, Chained, Owed, Tallied, Resume;
      Others();
      refs := refs - 1;
      Note(core.broker, false, Go(0, false, Accepted), refs + 1);
    }

    method KickCall(ghost k: Cont)
      requires Valid() && pc == Kicking(k)
      modifies this`refs, this`pc, this`trace, core
      ensures Valid() && pc == Resume(k) && old(trace) <= trace && Tallied(trace) == Tallied(old(trace))
    {
      hide Next, Chained, Owed, Tallied, Resume;
      var drop, retire := KickStep(k);
      if drop {
        DropStep(k);
      } else if retire != 0 {
        RetireStep(retire, k);
      }
    }

    method LeaveCall(ghost k: Cont)
      requires Valid() && pc == Leaving(k)
      modifies this`refs, this`pc, this`trace, core
      ensures Valid() && pc == Resume(k) && old(trace) <= trace && Tallied(trace) == Tallied(old(trace))
    {
      hide Enter, CommandStep, DeliveryStep, Chained, Owed, Tallied, Broker.Leave, Resume;
      Others();
      ghost var s := core.broker;
      core.LeaveSection();
      Note(s, false, Go(0, false, Accepted), refs);
      KickCall(k);
    }

    method TakeStep(ghost k: Cont) returns (taken: bool)
      requires Valid() && pc == Scheduling(k)
      modifies this`pc, this`trace, core
      ensures Valid() && old(trace) <= trace && Tallied(trace) == Tallied(old(trace))
      ensures pc == if taken then Enqueueing(k) else Resume(k)
    {
      hide Enter, CommandStep, DeliveryStep, Chained, Owed, Tallied, Broker.Schedule, Broker.ScheduleTaken, Resume;
      Others();
      ghost var s := core.broker;
      taken := core.ScheduleSection();
      Note(s, false, Go(0, false, Accepted), refs);
    }

    /** The item goes to the work queue, which may refuse it. */
    method EnqueueStep(ghost k: Cont)
      requires Valid() && pc == Enqueueing(k)
      modifies this`pc, this`trace, core
      ensures Valid() && pc == Leaving(k) && old(trace) <= trace && Tallied(trace) == Tallied(old(trace))
    {
      hide Enter, CommandStep, DeliveryStep, Chained, Owed, Tallied, Broker.ScheduleFailed, Resume;
      var submitted: bool := *;
      Others();
      ghost var s := core.broker;
      if !submitted { core.NotQueuedSection(); }
      Note(s, false, Go(0, submitted, Accepted), refs);
    }

    method ScheduleCall(ghost k: Cont)
      requires Valid() && pc == Scheduling(k)
      modifies this`refs, this`pc, this`trace, core
      ensures Valid() && pc == Resume(k) && old(trace) <= trace && Tallied(trace) == Tallied(old(trace))
    {
      hide Next, Chained, Owed, Tallied, Resume;
      var taken := TakeStep(k);
      if !taken { return; }
      EnqueueStep(k);
      LeaveCall(k);
    }

    // ----- recording_ble_command --------------------------------------------------------------------------

    /** One hook and the liveness test paired with its answer. */
    method Gate(left: nat, conn: nat, r: Request, epoch: nat, until: nat, hold: bool) returns (good: bool)
      requires Valid() && pc == CmdGate(left, conn, r, epoch, until, hold)
      modifies this`pc, this`trace, core
      ensures Valid() && old(trace) <= trace && Tallied(trace) == Tallied(old(trace))
      ensures pc == if good && left > 0 then CmdGate(left - 1, conn, r, epoch, until, hold)
        else CmdCommit(r, epoch, until, hold, good)
    {
      hide Enter, DeliveryStep, TailStep, Chained, Owed, Tallied, Broker.TickIf, Broker.Live;
      var yes: bool := *;
      var t: int := *;
      Others();
      ghost var s := core.broker;
      good := yes;
      if yes { good := core.LiveSection(epoch, conn, t); } else { NotTicked(s, t); }
      Note(s, false, Go(t, yes, Accepted), refs);
    }

    method CommitStep(r: Request, epoch: nat, until: nat, hold: bool, permitted: bool) returns (committed: bool)
      requires Valid() && pc == CmdCommit(r, epoch, until, hold, permitted)
      modifies this`pc, this`trace, core
      ensures Valid() && old(trace) <= trace && Tallied(trace) == Tallied(old(trace))
      ensures pc == if committed then CmdSubmitted(hold) else CmdDone(hold)
    {
      hide Enter, DeliveryStep, TailStep, Chained, Owed, Tallied, Broker.Commit, Broker.CommitOk;
      var t: int := *;
      Others();
      ghost var s := core.broker;
      committed := core.CommitSection(r, epoch, until, permitted, t);
      Note(s, false, Go(t, false, Accepted), refs);
    }

    /** The submit hook and its answer. */
    method SubmitStep(hold: bool) returns (accepted: bool)
      requires Valid() && pc == CmdSubmitted(hold)
      modifies this`pc, this`trace, core
      ensures Valid() && old(trace) <= trace && pc == if accepted then Scheduling(ThenDone(hold)) else CmdDone(hold)
      ensures Tallied(trace) == Tallied(old(trace)).(accepted := Tallied(old(trace)).accepted + One(accepted))
    {
      hide Enter, DeliveryStep, TailStep, Chained, Owed, Tallied, Broker.Submitted;
      var yes: bool := *;
      accepted := yes;
      Others();
      ghost var s := core.broker;
      core.SubmittedSection(accepted);
      Note(s, false, Go(0, accepted, Accepted), refs);
    }

    /** The command as far as its submission; `rc` is its result. */
    method Admit(r: Request, epoch: nat, until: nat, hold: bool, permitted: bool) returns (rc: Rc)
      requires Valid() && pc == CmdCommit(r, epoch, until, hold, permitted)
      modifies this`refs, this`pc, this`trace, core
      ensures Valid() && pc == CmdDone(hold) && old(trace) <= trace && (rc.OK? || rc.REFUSED?)
      ensures Tallied(trace) == Tallied(old(trace)).(accepted := Tallied(old(trace)).accepted + One(rc.OK?))
    {
      hide Next, Chained, Owed, Tallied;
      var committed := CommitStep(r, epoch, until, hold, permitted);
      if !committed { return REFUSED; }
      var accepted := SubmitStep(hold);
      if !accepted { return REFUSED; }
      ScheduleCall(ThenDone(hold));
      rc := OK;
    }

    /** It answers OK exactly when the submission was accepted, and BUSY exactly when the first section said so. */
    method Command(conn: nat, r: Request) returns (rc: Rc)
      requires Valid() && pc.Idle?
      modifies this`refs, this`pc, this`trace, core
      ensures Valid() && pc.Idle? && |old(trace)| + 1 < |trace| && old(trace) <= trace && !rc.FAULT?
      ensures trace[|old(trace)|].action == Action.Command(conn, r)
      ensures Tallied(trace) == Tallied(old(trace)).(accepted := Tallied(old(trace)).accepted + One(rc.OK?))
      ensures var m := trace[|old(trace)| + 1];
        m.pc == CmdOpen(conn, r) && m.action.Go? && (rc.BUSY? <==> OpenVerdict(m.before, conn, r, m.action.t).Busy?)
    {
      hide DeliveryStep, TailStep, Chained, Owed, Tallied, Broker.OpenState, Broker.OpenVerdict;
      refs := refs + 1;
      Note(core.broker, false, Action.Command(conn, r), refs - 1);
      var t: int := *;
      Others();
      ghost var s := core.broker;
      var verdict, epoch, until := core.OpenSection(conn, r, t);
      Note(s, false, Go(t, false, Accepted), refs);
      if verdict.Refused? || verdict.Busy? {
        Turned();
        return if verdict.Busy? then BUSY else REFUSED;
      }
      rc := Proceed(conn, r, epoch, until, verdict.Joined?);
    }

    /** Not admitted: the reference goes back at once. */
    method Turned()
      requires Valid() && pc.CmdRefused?
      modifies this`refs, this`pc, this`trace, core
      ensures Valid() && pc.Idle? && old(trace) <= trace && Tallied(trace) == Tallied(old(trace))
    {
      hide Enter, DeliveryStep, TailStep, Chained, Owed, Tallied;
      Others();
      refs := refs - 1;
      Note(core.broker, false, Go(0, false, Accepted), refs + 1);
      KickCall(End);
    }

    /** The reference taken on entry goes back, unless it became the session's. */
    method DoneStep(hold: bool)
      requires Valid() && pc == CmdDone(hold)
      modifies this`refs, this`pc, this`trace, core
      ensures Valid() && pc == Leaving(End) && old(trace) <= trace && Tallied(trace) == Tallied(old(trace))
    {
      hide Enter, DeliveryStep, TailStep, Chained, Owed, Tallied;
      Others();
      ghost var was := refs;
      if hold { refs := refs - 1; }
      Note(core.broker, false, Go(0, false, Accepted), was);
    }

    /** Admitted: both hooks, the commit, and the way out. `hold`: the session had a reference already. */
    method Proceed(conn: nat, r: Request, epoch: nat, until: nat, hold: bool) returns (rc: Rc)
      requires Valid() && pc == CmdGate(1, conn, r, epoch, until, hold)
      modifies this`refs, this`pc, this`trace, core
      ensures Valid() && pc.Idle? && old(trace) <= trace && (rc.OK? || rc.REFUSED?)
      ensures Tallied(trace) == Tallied(old(trace)).(accepted := Tallied(old(trace)).accepted + One(rc.OK?))
    {
      hide Next, Chained, Owed, Tallied;
      var permitted := Gate(1, conn, r, epoch, until, hold);
      if permitted { permitted := Gate(0, conn, r, epoch, until, hold); }
      rc := Admit(r, epoch, until, hold, permitted);
      DoneStep(hold);
      LeaveCall(End);
    }

    // ----- complete ---------------------------------------------------------------------------------------

    /** The verdict on the frame, reached with the stream's progress read outside any section. */
    method VerdictStep(r: Request, p: Response, success: bool, more: bool) returns (valid: bool)
      requires Valid() && pc == CompleteChecking(r, p, success, more)
      modifies this`pc, this`trace, core
      ensures Valid() && pc == CompleteEnding(r, p, success, valid, more) && old(trace) <= trace
        && Tallied(trace) == Tallied(old(trace))
      ensures valid ==> success
    {
      hide Enter, CommandStep, TailStep, Chained, Owed, Tallied, Broker.FrameOk;
      Others();
      valid := success && FrameOk(r, core.broker.streamSent, core.broker.streamTotal, p, more);
      Note(core.broker, false, Go(0, false, Accepted), refs);
    }

    method StageStep(r: Request, p: Response, success: bool, valid: bool, more: bool)
      requires Valid() && pc == CompleteEnding(r, p, success, valid, more)
      modifies this`pc, this`trace, core
      ensures Valid() && pc == Scheduling(ThenLeave) && old(trace) <= trace
      ensures Tallied(trace) == Tallied(old(trace)).(bad := Tallied(old(trace)).bad + One(success && !valid))
    {
      hide Enter, CommandStep, TailStep, Chained, Owed, Tallied, Broker.CompleteEnd;
      Others();
      ghost var s := core.broker;
      core.CompleteEndSection(r, p, success, valid, more);
      Note(s, false, Go(0, false, Accepted), refs);
    }

    method BeginStep(epoch: nat, sequence: nat, p: Response, success: bool, more: bool)
        returns (taken: bool, r: Request)
      requires Valid() && pc.Idle?
      modifies this`pc, this`trace, core
      ensures Valid() && |trace| == |old(trace)| + 1 && old(trace) <= trace && Tallied(trace) == Tallied(old(trace))
      ensures var m := trace[|old(trace)|];
        m.action == Action.Complete(epoch, sequence, p, success, more)
          && (taken <==> CompleteTaken(m.before, epoch, sequence))
      ensures pc == if taken then CompleteChecking(r, p, success, more) else Idle
    {
      hide CommandStep, DeliveryStep, TailStep, Chained, Owed, Tallied, Broker.CompleteBegin, Broker.CompleteTaken;
      Others();
      ghost var s := core.broker;
      taken, r := core.CompleteSection(epoch, sequence);
      Note(s, false, Action.Complete(epoch, sequence, p, success, more), refs);
    }

    /** REFUSED exactly when nothing waits for this completion; FAULT exactly for a bad frame. */
    method Complete(epoch: nat, sequence: nat, p: Response, success: bool, more: bool) returns (rc: Rc)
      requires Valid() && pc.Idle?
      modifies this`refs, this`pc, this`trace, core
      ensures Valid() && pc.Idle? && |old(trace)| < |trace| && old(trace) <= trace && !rc.BUSY?
      ensures var m := trace[|old(trace)|];
        m.action == Action.Complete(epoch, sequence, p, success, more)
          && (rc.REFUSED? <==> !CompleteTaken(m.before, epoch, sequence))
      ensures Tallied(trace) == Tallied(old(trace)).(bad := Tallied(old(trace)).bad + One(rc.FAULT?))
    {
      hide Next, Chained, Owed, Tallied, Broker.CompleteTaken;
      var taken, r := BeginStep(epoch, sequence, p, success, more);
      if !taken { return REFUSED; }
      var valid := VerdictStep(r, p, success, more);
      StageStep(r, p, success, valid, more);
      ScheduleCall(ThenLeave);
      LeaveCall(End);
      rc := if success && !valid then FAULT else OK;
    }

    // ----- deliver and the work item ----------------------------------------------------------------------

    /** The liveness test before the hooks (2), after `ready` (1) and after `authorized` (0). */
    method Check(left: nat, epoch: nat, conn: nat, p: Response, ok: bool) returns (good: bool)
      requires Valid() && pc == DeliverCheck(left, epoch, conn, p, ok)
      modifies this`pc, this`trace, core
      ensures Valid() && old(trace) <= trace && Tallied(trace) == Tallied(old(trace))
      ensures pc == if good && left > 0 then DeliverCheck(left - 1, epoch, conn, p, ok)
        else DeliverNotify(epoch, conn, p, good)
    {
      hide Enter, CommandStep, TailStep, Chained, Owed, Tallied, Broker.TickIf, Broker.Live;
      var yes: bool := *;
      var t: int := *;
      Others();
      ghost var s := core.broker;
      good := ok && (yes || left == 2);
      if good { good := core.LiveSection(epoch, conn, t); } else { NotTicked(s, t); }
      Note(s, false, Go(t, yes, Accepted), refs);
    }

    /** The frame is offered to the stack; full buffers keep a stream frame for later. */
    method Send(epoch: nat, conn: nat, p: Response, ok: bool) returns (accepted: bool, full: bool)
      requires Valid() && pc == DeliverNotify(epoch, conn, p, ok)
      modifies this`pc, this`trace, core
      ensures Valid() && pc == DeliverAfter(epoch, conn, p, accepted, full) && old(trace) <= trace
        && Tallied(trace) == Tallied(old(trace))
    {
      hide Enter, CommandStep, TailStep, Chained, Owed, Tallied;
      var took: bool := *;
      var out: bool := *;
      var answer := if took then Accepted else if out then NoBuffers else Failed;
      Others();
      ghost var s := core.broker;
      accepted, full := ok && took, ok && !took && out && core.broker.request.stream;
      if accepted { core.broker := core.broker.(sent := core.broker.sent + [p]); }
      Note(s, false, Go(0, false, answer), refs);
    }

    method StartStep() returns (begun: bool, epoch: nat, conn: nat, frame: Response, ok: bool)
      requires Valid() && pc.Delivering?
      modifies this`pc, this`trace, core
      ensures Valid() && old(trace) <= trace && Tallied(trace) == Tallied(old(trace))
      ensures pc == if begun then DeliverCheck(2, epoch, conn, frame, ok) else Leaving(End)
    {
      hide Enter, CommandStep, TailStep, Chained, Owed, Tallied, Broker.DeliverStart, Broker.Deliverable;
      Others();
      ghost var s := core.broker;
      begun, epoch, conn, frame, ok := core.DeliverStartSection();
      Note(s, false, Go(0, false, Accepted), refs);
    }

    /** The last liveness test decides between done, retry and revoked. */
    method AfterStep(epoch: nat, conn: nat, p: Response, accepted: bool, full: bool) returns (ok: bool, retry: bool)
      requires Valid() && pc == DeliverAfter(epoch, conn, p, accepted, full)
      modifies this`pc, this`trace, core
      ensures Valid() && pc == DeliverEnding(epoch, p, accepted, ok, retry) && old(trace) <= trace
        && Tallied(trace) == Tallied(old(trace))
    {
      hide Enter, CommandStep, TailStep, Chained, Owed, Tallied, Broker.TickIf, Broker.Live;
      var t: int := *;
      Others();
      ghost var s := core.broker;
      var live := false;
      if accepted || full { live := core.LiveSection(epoch, conn, t); } else { NotTicked(s, t); }
      ok, retry := accepted && live, full && live;
      Note(s, false, Go(t, false, Accepted), refs);
    }

    method EndStep(epoch: nat, p: Response, ghost accepted: bool, ok: bool, retry: bool)
      requires Valid() && pc == DeliverEnding(epoch, p, accepted, ok, retry)
      modifies this`pc, this`trace, core
      ensures Valid() && pc == Leaving(End) && old(trace) <= trace && Tallied(trace) == Tallied(old(trace))
    {
      hide Enter, CommandStep, TailStep, Chained, Owed, Tallied, Broker.DeliverEnd;
      Others();
      ghost var s := core.broker;
      core.DeliverEndSection(epoch, p, ok, retry);
      Note(s, false, Go(0, false, Accepted), refs);
    }

    method Deliver()
      requires Valid() && pc.Delivering?
      modifies this`refs, this`pc, this`trace, core
      ensures Valid() && pc == Leaving(End) && old(trace) <= trace && Tallied(trace) == Tallied(old(trace))
    {
      hide Next, Chained, Owed, Tallied;
      var begun, epoch, conn, frame, ok := StartStep();
      if !begun { return; }
      var good := Check(2, epoch, conn, frame, ok);
      if good { good := Check(1, epoch, conn, frame, ok); }
      if good { good := Check(0, epoch, conn, frame, ok); }
      var accepted, full := Send(epoch, conn, frame, good);
      var done, retry := AfterStep(epoch, conn, frame, accepted, full);
      EndStep(epoch, frame, accepted, done, retry);
    }

    /** The work item. */
    method RunItem()
      requires Valid() && pc.Idle?
      modifies this`refs, this`pc, this`trace, core
      ensures Valid() && pc.Idle? && |old(trace)| < |trace| && old(trace) <= trace
        && Tallied(trace) == Tallied(old(trace))
      ensures trace[|old(trace)|].action == RunWork && trace[|old(trace)|].work
    {
      hide CommandStep, DeliveryStep, TailStep, Chained, Owed, Tallied, Broker.Handler, Broker.HandlerTaken;
      Others();
      ghost var s := core.broker;
      var taken := core.HandlerSection();
      Note(s, true, RunWork, refs);
      if taken {
        Deliver();
        LeaveCall(End);
      }
    }

    // ----- the rest ---------------------------------------------------------------------------------------

    method StreamReady(epoch: nat, sequence: nat) returns (answer: int)
      requires Valid() && pc.Idle?
      modifies this`refs, this`pc, this`trace, core
      ensures Valid() && pc.Idle? && |old(trace)| < |trace| && old(trace) <= trace
        && Tallied(trace) == Tallied(old(trace))
      ensures var m := trace[|old(trace)|];
        && m.action.StreamReady? && m.action.epoch == epoch && m.action.sequence == sequence
        && (answer == 0 <==> StreamStaged(m.after, epoch, sequence, m.action.t))
    {
      hide CommandStep, DeliveryStep, TailStep, Chained, Owed, Tallied, Broker.TickIf, Broker.StreamStaged;
      var t: int := *;
      Others();
      ghost var s := core.broker;
      answer := core.StreamReadySection(epoch, sequence, t);
      Note(s, false, Action.StreamReady(epoch, sequence, t), refs);
      if answer == 0 { ScheduleCall(End); }
    }

    method Disconnect(conn: nat)
      requires Valid() && pc.Idle?
      modifies this`refs, this`pc, this`trace, core
      ensures Valid() && pc.Idle? && |old(trace)| < |trace| && old(trace) <= trace
        && Tallied(trace) == Tallied(old(trace))
      ensures trace[|old(trace)|].action == Action.Disconnect(conn)
    {
      hide CommandStep, DeliveryStep, TailStep, Chained, Owed, Tallied, Broker.Disconnected;
      Others();
      ghost var s := core.broker;
      core.DisconnectedSection(conn);
      Note(s, false, Action.Disconnect(conn), refs);
      KickCall(End);
    }

    method Retired(epoch: nat, result: bool) returns (rc: Rc)
      requires Valid() && pc.Idle?
      modifies this`refs, this`pc, this`trace, core
      ensures Valid() && pc.Idle? && |old(trace)| < |trace| && old(trace) <= trace
        && Tallied(trace) == Tallied(old(trace))
      ensures var m := trace[|old(trace)|];
        m.action == RetiredCall(epoch, result)
        && rc == if !RetireTaken(m.before, epoch) then REFUSED else if result then OK else FAULT
    {
      hide CommandStep, DeliveryStep, TailStep, Chained, Owed, Tallied, Broker.Retired, Broker.RetireTaken;
      Others();
      ghost var s := core.broker;
      var taken := core.RetiredSection(epoch, result);
      Note(s, false, RetiredCall(epoch, result), refs);
      if !taken { return REFUSED; }
      if !result { return FAULT; }
      DropStep(End);
      rc := OK;
    }

    /** `ready` is the hook's answer, which is asked for before the section. */
    method Poll(ready: bool)
      requires Valid() && pc.Idle?
      modifies this`refs, this`pc, this`trace, core
      ensures Valid() && pc.Idle? && |old(trace)| < |trace| && old(trace) <= trace
        && Tallied(trace) == Tallied(old(trace))
      ensures trace[|old(trace)|].action.Poll? && trace[|old(trace)|].action.ready == ready
    {
      hide CommandStep, DeliveryStep, TailStep, Chained, Owed, Tallied, Broker.Polled;
      var t: int := *;
      Others();
      ghost var s := core.broker;
      var stream := core.PollSection(ready, t);
      Note(s, false, Action.Poll(ready, t), refs);
      if stream { ScheduleCall(ThenKick); }
      KickCall(End);
    }
  }
}
