/**
 What a request's frames say. For a stream request the frames that were enqueued tile the object from
 the requested offset, each at most one frame long and all with one total, and the request is over
 exactly when they add up to what it asked for: under every interleaving, with retries and
 revocation. Any other request is answered by exactly one frame.
 */
module BrokerStream {
  import opened Broker
  import opened BrokerRuns
  import opened BrokerSafety

  function SumLen(sent: seq<Response>): nat {
    if sent == [] then 0 else SumLen(sent[..|sent| - 1]) + sent[|sent| - 1].len
  }

  /** Every frame is the next fragment of the same object. */
  predicate Tiles(r: Request, sent: seq<Response>) {
    sent == [] ||
    var before := sent[..|sent| - 1];
    var p := sent[|sent| - 1];
    Tiles(r, before) && StreamFrameOk(r, SumLen(before), p) && (before != [] ==> before[|before| - 1].total == p.total)
  }

  predicate Exact(r: Request, sent: seq<Response>) {
    if r.stream then Tiles(r, sent) else |sent| <= 1
  }

  /** The request got all it asked for. */
  predicate Whole(r: Request, sent: seq<Response>) {
    && sent != []
    && (r.stream ==>
          var total := sent[|sent| - 1].total;
          r.offset <= total && SumLen(sent) == Min(r.maximum, total - r.offset))
  }

  /** `p` is what comes next, and the record knows whether it is the last. */
  predicate Fits(r: Request, sent: nat, total: nat, more: bool, p: Response) {
    && StreamFrameOk(r, sent, p) && total == p.total
    && (more <==> p.len < Remaining(r, p.total, sent))
  }

  /** The part of the record that follows one request. */
  datatype Job = Job(asked: Request, sent: seq<Response>, streamSent: nat, streamTotal: nat, streamMore: bool)

  function View(s: State): Job { Job(s.asked, s.sent, s.streamSent, s.streamTotal, s.streamMore) }

  predicate Coming(j: Job, p: Response) {
    if j.asked.stream then
      && Fits(j.asked, j.streamSent, j.streamTotal, j.streamMore, p)
      && j.streamSent == SumLen(j.sent) && (j.sent != [] ==> j.sent[|j.sent| - 1].total == p.total)
    else j.sent == [] && !j.streamMore
  }

  predicate Gone(j: Job, p: Response) {
    && j.sent != [] && j.sent[|j.sent| - 1] == p
    && if j.asked.stream then
         && Fits(j.asked, j.streamSent, j.streamTotal, j.streamMore, p)
         && j.streamSent == SumLen(j.sent[..|j.sent| - 1])
       else |j.sent| == 1 && !j.streamMore
  }

  /** Between frames the counters agree with what was sent, and something is still missing. */
  predicate Between(j: Job) {
    && !Whole(j.asked, j.sent)
    && if j.asked.stream then
         j.streamSent == SumLen(j.sent) && (j.sent != [] ==> j.sent[|j.sent| - 1].total == j.streamTotal > 0)
       else j.sent == []
  }

  predicate Sound(s: State) {
    && Exact(s.asked, s.sent)
    && (s.pending ==> s.committed && s.request == s.asked)
    && (!s.active ==> !s.terminal && !s.completing && !s.committed)
    && (s.active && !s.pending && !s.revoked ==>
          !s.terminal && !s.completing && (s.committed ==> Whole(s.asked, s.sent)))
    && (s.completing ==> !s.delivering) && (s.delivering && s.pending ==> s.terminal)
    && (s.delivering && !s.revoked ==> s.pending)
    && (s.pending && !s.revoked && !s.delivering ==> Between(View(s)))
    && (s.pending && !s.revoked && !s.delivering && s.terminal && s.terminalOk ==> Coming(View(s), s.response))
  }

  /** While the request is live, the frame in hand is still the one staged. */
  predicate InHand(s: State, p: Response) {
    s.pending && !s.revoked ==> p == s.response && s.terminalOk
  }

  /** What each thread may rely on. */
  predicate Told(s: State, pc: Pc) {
    match pc
    case CompleteChecking(r, _, _, _) => r == s.asked
    case CompleteEnding(r, p, success, valid, more) =>
      r == s.asked && (valid ==> success && FrameOk(r, s.streamSent, s.streamTotal, p, more))
    case DeliverCheck(_, _, _, p, ok) => ok ==> InHand(s, p) && (s.pending && !s.revoked ==> Coming(View(s), p))
    case DeliverNotify(_, _, p, ok) => ok ==> InHand(s, p) && Coming(View(s), p)
    case DeliverAfter(_, _, p, accepted, full) =>
      (accepted ==> Gone(View(s), p)) && (full ==> !accepted && InHand(s, p) && Coming(View(s), p))
    case DeliverEnding(_, p, accepted, ok, retry) =>
      && (ok ==> accepted) && (accepted ==> Gone(View(s), p) && !retry)
      && (retry ==> InHand(s, p) && Coming(View(s), p))
    case _ => true
  }

  // ----- One lemma for each section --------------------------------------------------------------------

  /** Sections that leave the request, its counters and its frames alone, and at most stop it. */
  predicate Calm(s: State, u: State) {
    && View(u) == View(s) && u.committed == s.committed
    && (u.pending && !u.revoked ==> s.pending && !s.revoked && u.response == s.response && u.terminalOk == s.terminalOk)
  }

  lemma CalmTold(s: State, u: State, pc: Pc)
    requires Calm(s, u) && Told(s, pc)
    ensures Told(u, pc)
  {
    hide Coming, Gone, View, Broker.FrameOk;
    ViewFields(s, u);
  }

  lemma ViewFields(s: State, u: State)
    requires View(s) == View(u)
    ensures u.asked == s.asked && u.sent == s.sent && u.streamSent == s.streamSent
    ensures u.streamTotal == s.streamTotal && u.streamMore == s.streamMore
  {
  }

  lemma TickSound(on: bool, s: State, t: int)
    requires Sound(s)
    ensures Sound(TickIf(on, s, t))
  {
    hide Exact, Whole, Between, Coming;
  }

  lemma TickCalm(on: bool, s: State, t: int)
    ensures Calm(s, TickIf(on, s, t))
  {
  }

  lemma ClockSound(s: State, t: int)
    requires Sound(s)
    ensures Sound(Clock(s, t))
  {
    hide Exact, Whole, Between, Coming;
  }

  lemma ClockCalm(s: State, t: int)
    ensures Calm(s, Clock(s, t))
  {
  }

  lemma PolledSound(s: State, ready: bool, t: int)
    requires Sound(s)
    ensures Sound(Polled(s, ready, t))
  {
    hide Exact, Whole, Between, Coming;
  }

  lemma PolledCalm(s: State, ready: bool, t: int)
    ensures Calm(s, Polled(s, ready, t))
  {
  }

  lemma OpenSound(s: State, conn: nat, r: Request, t: int, c: Tally, refs: int, n: nat)
    requires Sound(s) && Core(s, c, refs, n)
    ensures Sound(OpenState(s, conn, r, t))
  {
    hide Exact, Whole, Between, Coming, Core, Broker.TickIf, Broker.OpenVerdict;
    TickSound(s.initialized && !s.fault, s, t);
  }

  lemma OpenCalm(s: State, conn: nat, r: Request, t: int)
    ensures Calm(s, OpenState(s, conn, r, t))
  {
    hide Broker.TickIf, Broker.OpenVerdict;
    TickCalm(s.initialized && !s.fault, s, t);
  }

  lemma CommitSound(s: State, r: Request, epoch: nat, deadline: nat, permitted: bool, t: int, c: Tally, refs: int,
      n: nat)
    requires Sound(s) && Core(s, c, refs, n) && c.early >= 1 && s.active
    ensures Sound(Commit(s, r, epoch, deadline, permitted, t))
  {
  }

  lemma SubmittedSound(s: State, accepted: bool, c: Tally, refs: int, n: nat)
    requires Sound(s) && Core(s, c, refs, n) && c.submitting >= 1
    ensures Sound(Submitted(s, accepted))
  {
    hide Exact, Whole, Between, Coming;
  }

  lemma SubmittedCalm(s: State, accepted: bool)
    ensures Calm(s, Submitted(s, accepted))
  {
  }

  lemma LeaveSound(s: State)
    requires Sound(s)
    ensures Sound(Leave(s)) && Calm(s, Leave(s))
  {
    hide Exact, Whole, Between, Coming;
  }

  lemma ClearSound(s: State, c: Tally, refs: int, n: nat)
    requires Sound(s) && Core(s, c, refs, n) && s.actors == 0 && Nested(c)
    ensures Sound(Clear(s))
  {
    hide Whole, Between, Coming;
  }

  lemma CompleteSound(s: State, epoch: nat, sequence: nat)
    requires Sound(s) && CompleteTaken(s, epoch, sequence)
    ensures Sound(CompleteBegin(s)) && Calm(s, CompleteBegin(s)) && s.request == s.asked
  {
    hide Exact, Whole, Between, Coming;
  }

  lemma CompleteEndSound(s: State, r: Request, p: Response, success: bool, valid: bool, more: bool, c: Tally, refs: int,
      n: nat)
    requires Sound(s) && Core(s, c, refs, n) && c.completing >= 1 && c.actors >= 1
    requires Told(s, CompleteEnding(r, p, success, valid, more))
    ensures Sound(CompleteEnd(s, r, p, success, valid, more))
  {
  }

  lemma RetiredSound(s: State, epoch: nat, ok: bool, c: Tally, refs: int, n: nat)
    requires Sound(s) && Core(s, c, refs, n) && Nested(c)
    ensures Sound(Retired(s, epoch, ok))
  {
    hide Sound, Core;
    if RetireTaken(s, epoch) && ok { ClearSound(s, c, refs, n); } else { RetireFailedSound(s, epoch, ok); }
  }

  lemma RetireFailedSound(s: State, epoch: nat, ok: bool)
    requires Sound(s) && !(RetireTaken(s, epoch) && ok)
    ensures Sound(Retired(s, epoch, ok)) && Calm(s, Retired(s, epoch, ok))
  {
    hide Exact, Whole, Between, Coming;
  }

  lemma KickSound(s: State, c: Tally, refs: int, n: nat)
    requires Sound(s) && Core(s, c, refs, n) && Nested(c)
    ensures Sound(Kick(s))
  {
    hide Sound, Core;
    if KickReady(s) && !s.everSubmitted { ClearSound(s, c, refs, n); } else { KickKeptSound(s); }
  }

  lemma KickKeptSound(s: State)
    requires Sound(s) && !(KickReady(s) && !s.everSubmitted)
    ensures Sound(Kick(s)) && Calm(s, Kick(s))
  {
    hide Exact, Whole, Between, Coming;
  }

  lemma HookFailedSound(s: State, epoch: nat)
    requires Sound(s)
    ensures Sound(RetireHookFailed(s, epoch)) && Calm(s, RetireHookFailed(s, epoch))
  {
    hide Exact, Whole, Between, Coming;
  }

  lemma DisconnectedSound(s: State, conn: nat)
    requires Sound(s)
    ensures Sound(Disconnected(s, conn)) && Calm(s, Disconnected(s, conn))
  {
    hide Exact, Whole, Between, Coming;
  }

  lemma InitSound(s: State)
    requires Sound(s)
    ensures Sound(Broker.Init(s)) && Calm(s, Broker.Init(s))
  {
    hide Exact, Whole, Between, Coming;
  }

  lemma ScheduleSound(s: State)
    requires Sound(s)
    ensures Sound(Schedule(s)) && Calm(s, Schedule(s))
  {
    hide Exact, Whole, Between, Coming;
  }

  lemma ScheduleFailedSound(s: State)
    requires Sound(s)
    ensures Sound(ScheduleFailed(s))
  {
    hide Exact, Whole, Between, Coming;
  }

  lemma ScheduleFailedCalm(s: State)
    ensures Calm(s, ScheduleFailed(s))
  {
  }

  lemma HandlerSound(s: State)
    requires Sound(s)
    ensures Sound(Handler(s))
  {
    hide Exact, Whole, Between, Coming;
  }

  lemma HandlerCalm(s: State)
    ensures Calm(s, Handler(s))
  {
  }

  lemma StartSound(s: State, c: Tally, refs: int, n: nat)
    requires Sound(s) && Core(s, c, refs, n)
    ensures var u := DeliverStart(s);
      Sound(u) && Calm(s, u) && (Deliverable(s) ==> Told(u, DeliverCheck(2, s.epoch, s.conn, s.response, s.terminalOk)))
  {
    hide Exact, Whole, Between, Coming;
  }

  /** The enqueued frame is the next one: what was sent stays exact. */
  lemma NotifySound(s: State, p: Response)
    requires Sound(s) && s.delivering && Coming(View(s), p)
    ensures var u := Notified(s, p, true); Sound(u) && Gone(View(u), p)
  {
    var u := Notified(s, p, true);
    assert u.sent[..|u.sent| - 1] == s.sent;
    assert Exact(u.asked, u.sent);
    assert Gone(View(u), p);
  }

  lemma EndSound(s: State, epoch: nat, p: Response, accepted: bool, ok: bool, retry: bool, c: Tally, refs: int, n: nat)
    requires Sound(s) && Core(s, c, refs, n) && c.delivery >= 1 && s.active && s.epoch == epoch
    requires Told(s, DeliverEnding(epoch, p, accepted, ok, retry))
    ensures Sound(DeliverEnd(s, epoch, p, ok, retry))
  {
    var u := DeliverEnd(s, epoch, p, ok, retry);
    if ok {
      GoneAdvances(View(s), p);
    } else if retry {
      ComingIsBetween(View(s), p);
    }
  }

  /** A frame that went out either completes the request or leaves the counters one frame further on. */
  lemma GoneAdvances(j: Job, p: Response)
    requires Gone(j, p) && Exact(j.asked, j.sent)
    ensures if j.streamMore then Between(j.(streamSent := j.streamSent + p.len, streamMore := false))
      else Whole(j.asked, j.sent)
  {
  }

  lemma ComingIsBetween(j: Job, p: Response)
    requires Coming(j, p) && Exact(j.asked, j.sent)
    ensures Between(j)
  {
  }

  // ----- One step of one thread ------------------------------------------------------------------------

  /** Nobody else stands in a completion or a delivery. */
  predicate Alone(c: Tally, pc: Pc) {
    c.delivery == Held(pc).delivery && c.completing == Held(pc).completing
  }

  predicate Carried(s: State, e: Effect, pc: Pc, c: Tally) {
    Sound(e.s) && Told(e.s, e.pc) && (Calm(s, e.s) || Alone(c, pc))
  }

  lemma Itself(s: State)
    ensures Calm(s, s)
  {
  }

  lemma ResumeTold(s: State, k: Cont)
    ensures Told(s, Resume(k))
  {
  }

  lemma EnterCarried(s: State, work: bool, a: Action, e: Effect, c: Tally, refs: int, n: nat)
    requires Ready(s, Idle, c, refs, n) && Sound(s) && e == Enter(s, work, a)
    ensures Carried(s, e, Idle, c)
  {
    hide Sound, Calm, Core, Broker.Retired, Broker.Polled, Broker.TickIf, Broker.Clock, Broker.CompleteBegin,
         Broker.Handler, Broker.Disconnected, Broker.Init;
    match a
    case Init => InitSound(s);
    case Command(_, _) => Itself(s);
    case Complete(epoch, sequence, _, _, _) =>
      Itself(s);
      if CompleteTaken(s, epoch, sequence) { CompleteSound(s, epoch, sequence); AskedKept(s); }
    case StreamReady(_, _, t) => TickSound(true, s, t); TickCalm(true, s, t);
    case Poll(ready, t) => PolledSound(s, ready, t); PolledCalm(s, ready, t);
    case Disconnect(conn) => DisconnectedSound(s, conn);
    case RetiredCall(epoch, ok) =>
      RetiredSound(s, epoch, ok, c, refs, n);
      if RetireTaken(s, epoch) && ok { QuietAlone(s, Idle, c, refs, n); } else { RetireFailedSound(s, epoch, ok); }
    case RunWork => Itself(s); HandlerSound(s); HandlerCalm(s);
    case Query(expire, t) => TickSound(true, s, t); TickCalm(true, s, t); ClockSound(s, t); ClockCalm(s, t);
    case Go(_, _, _) => Itself(s);
  }

  lemma AskedKept(s: State)
    ensures CompleteBegin(s).asked == s.asked
  {
  }

  lemma QuietAlone(s: State, pc: Pc, c: Tally, refs: int, n: nat)
    requires Core(s, c, refs, n) && s.actors == 0 && Covers(c, Held(pc))
    ensures Alone(c, pc)
  {
  }

  lemma CommitAlone(s: State, pc: Pc, c: Tally, refs: int, n: nat)
    requires Core(s, c, refs, n) && Sound(s) && pc.CmdCommit? && Covers(c, Held(pc)) && s.active
    ensures s.revoked || Alone(c, pc)
  {
  }

  lemma CommitCalm(s: State, r: Request, epoch: nat, deadline: nat, permitted: bool, t: int)
    requires !CommitOk(s, epoch, deadline, permitted, t)
    ensures Calm(s, Commit(s, r, epoch, deadline, permitted, t))
  {
  }

  lemma CommandCarried(s: State, pc: Pc, work: bool, t: int, yes: bool, e: Effect, c: Tally, refs: int, n: nat)
    requires InCommand(pc) && Ready(s, pc, c, refs, n) && Sound(s) && e == CommandStep(s, pc, work, t, yes)
    ensures Carried(s, e, pc, c)
  {
    hide Sound, Calm, Core, Broker.TickIf, Broker.OpenState, Broker.OpenVerdict, Broker.Commit, Broker.Submitted,
         Broker.Live;
    Itself(s);
    match pc
    case CmdOpen(conn, r) => OpenSound(s, conn, r, t, c, refs, n); OpenCalm(s, conn, r, t);
    case CmdGate(_, _, _, _, _, _) => TickSound(yes, s, t); TickCalm(yes, s, t);
    case CmdCommit(r, epoch, deadline, _, permitted) =>
      CommitSound(s, r, epoch, deadline, permitted, t, c, refs, n);
      if CommitOk(s, epoch, deadline, permitted, t) {
        CommitAlone(s, pc, c, refs, n);
      } else {
        CommitCalm(s, r, epoch, deadline, permitted, t);
      }
    case CmdSubmitted(_) => SubmittedSound(s, yes, c, refs, n); SubmittedCalm(s, yes);
    case CmdDone(_) =>
    case CmdRefused =>
  }

  lemma CompletingAlone(s: State, pc: Pc, c: Tally, refs: int, n: nat)
    requires Core(s, c, refs, n) && Sound(s) && (pc.CompleteEnding? || pc.CompleteChecking?) && Covers(c, Held(pc))
    ensures Alone(c, pc)
  {
  }

  lemma CompletingCarried(s: State, pc: Pc, work: bool, t: int, yes: bool, m: Notify, e: Effect, c: Tally, refs: int,
      n: nat)
    requires (pc.CompleteChecking? || pc.CompleteEnding?) && Ready(s, pc, c, refs, n) && Sound(s) && Told(s, pc)
    requires e == DeliveryStep(s, pc, work, t, yes, m)
    ensures Carried(s, e, pc, c)
  {
    hide Sound, Calm, Core, Broker.CompleteEnd, Broker.FrameOk;
    CompletingAlone(s, pc, c, refs, n);
    if pc.CompleteEnding? {
      CompleteEndSound(s, pc.r, pc.p, pc.success, pc.valid, pc.more, c, refs, n);
    }
  }

  lemma DeliveringAlone(s: State, pc: Pc, c: Tally, refs: int, n: nat)
    requires Core(s, c, refs, n) && Sound(s) && Held(pc).delivery == 1 && Covers(c, Held(pc)) && !pc.CompleteEnding?
      && !pc.CompleteChecking?
    ensures Alone(c, pc) && s.delivering
  {
  }

  /** A live answer means the request was still the one the frame was staged for. */
  lemma LiveMeans(s: State, t: int, epoch: nat, conn: nat)
    requires Live(s, t, epoch, conn) && Sound(s) && s.delivering
    ensures s.pending && !s.revoked && !TickIf(true, s, t).revoked
  {
  }

  lemma CheckTold(s: State, pc: Pc, work: bool, t: int, yes: bool, m: Notify, e: Effect)
    requires pc.DeliverCheck? && Sound(s) && s.delivering && Told(s, pc) && e == DeliveryStep(s, pc, work, t, yes, m)
    ensures Told(e.s, e.pc)
  {
    hide Sound, Coming, Gone, Broker.TickIf, View, Broker.Live;
    var asked := pc.ok && (yes || pc.left == 2);
    if asked && Live(s, t, pc.epoch, pc.conn) {
      LiveMeans(s, t, pc.epoch, pc.conn);
      assert InHand(s, pc.p) && Coming(View(s), pc.p);
      assert Told(s, DeliverNotify(pc.epoch, pc.conn, pc.p, true));
      TickCalm(true, s, t);
      CalmTold(s, e.s, DeliverNotify(pc.epoch, pc.conn, pc.p, true));
      CalmTold(s, e.s, pc);
    }
  }

  lemma CheckCarried(s: State, pc: Pc, work: bool, t: int, yes: bool, m: Notify, e: Effect, c: Tally, refs: int, n: nat)
    requires pc.DeliverCheck? && Ready(s, pc, c, refs, n) && Sound(s) && Told(s, pc)
    requires e == DeliveryStep(s, pc, work, t, yes, m)
    ensures Carried(s, e, pc, c)
  {
    hide Sound, Calm, Core, Told, Broker.TickIf, Broker.Live;
    DeliveringAlone(s, pc, c, refs, n);
    CheckTold(s, pc, work, t, yes, m, e);
    TickSound(pc.ok && (yes || pc.left == 2), s, t);
  }

  lemma NotifyTold(s: State, pc: Pc, work: bool, t: int, yes: bool, m: Notify, e: Effect)
    requires pc.DeliverNotify? && Sound(s) && s.delivering && Told(s, pc) && e == DeliveryStep(s, pc, work, t, yes, m)
    ensures Sound(e.s) && Told(e.s, e.pc)
  {
    hide Sound, Coming, Gone, View, InHand;
    if pc.ok && m.Accepted? { NotifySound(s, pc.p); }
  }

  lemma AfterCarried(s: State, pc: Pc, work: bool, t: int, yes: bool, m: Notify, e: Effect, c: Tally, refs: int, n: nat)
    requires pc.DeliverAfter? && Ready(s, pc, c, refs, n) && Sound(s) && Told(s, pc)
    requires e == DeliveryStep(s, pc, work, t, yes, m)
    ensures Carried(s, e, pc, c)
  {
    hide Sound, Calm, Core, Coming, Gone, Broker.TickIf, Broker.Live, View, InHand;
    DeliveringAlone(s, pc, c, refs, n);
    TickSound(pc.accepted || pc.full, s, t);
    TickCalm(pc.accepted || pc.full, s, t);
    CalmTold(s, e.s, pc);
  }

  lemma DeliveryCarried(s: State, pc: Pc, work: bool, t: int, yes: bool, m: Notify, e: Effect, c: Tally, refs: int,
      n: nat)
    requires InDelivery(pc) && Ready(s, pc, c, refs, n) && Sound(s) && Told(s, pc)
      && e == DeliveryStep(s, pc, work, t, yes, m)
    ensures Carried(s, e, pc, c)
  {
    hide Sound, Calm, Core, Broker.DeliverStart, Broker.DeliverEnd, Broker.CompleteEnd, Broker.FrameOk, Broker.TickIf,
         Broker.Live, Coming, Gone, View, InHand;
    match pc
    case CompleteChecking(_, _, _, _) => CompletingCarried(s, pc, work, t, yes, m, e, c, refs, n);
    case CompleteEnding(_, _, _, _, _) => CompletingCarried(s, pc, work, t, yes, m, e, c, refs, n);
    case Delivering => StartSound(s, c, refs, n);
    case DeliverCheck(_, _, _, _, _) => CheckCarried(s, pc, work, t, yes, m, e, c, refs, n);
    case DeliverNotify(_, _, _, _) => DeliveringAlone(s, pc, c, refs, n); NotifyTold(s, pc, work, t, yes, m, e);
    case DeliverAfter(_, _, _, _, _) => AfterCarried(s, pc, work, t, yes, m, e, c, refs, n);
    case DeliverEnding(epoch, p, accepted, ok, retry) =>
      DeliveringAlone(s, pc, c, refs, n); EndSound(s, epoch, p, accepted, ok, retry, c, refs, n);
  }

  lemma TailCarried(s: State, pc: Pc, work: bool, yes: bool, e: Effect, c: Tally, refs: int, n: nat)
    requires !pc.Idle? && !InCommand(pc) && !InDelivery(pc) && Ready(s, pc, c, refs, n) && Sound(s)
      && e == TailStep(s, pc, work, yes)
    ensures Carried(s, e, pc, c)
  {
    hide Sound, Calm, Core, Broker.Schedule, Broker.ScheduleFailed, Broker.Leave, Broker.Kick, Broker.RetireHookFailed;
    Itself(s);
    ResumeTold(e.s, pc.k);
    match pc
    case Scheduling(_) => ScheduleSound(s);
    case Enqueueing(_) => ScheduleFailedSound(s); ScheduleFailedCalm(s);
    case Leaving(_) => LeaveSound(s);
    case Kicking(_) =>
      KickSound(s, c, refs, n);
      if KickReady(s) && !s.everSubmitted { QuietAlone(s, pc, c, refs, n); } else { KickKeptSound(s); }
    case Dropping(_) =>
    case Retiring(epoch, _) => HookFailedSound(s, epoch);
  }

  lemma NextCarried(s: State, pc: Pc, work: bool, a: Action, e: Effect, c: Tally, refs: int, n: nat)
    requires Ready(s, pc, c, refs, n) && Sound(s) && Told(s, pc) && e == Next(s, pc, work, a)
    ensures Carried(s, e, pc, c)
  {
    hide Core, Sound, Calm, Enter, CommandStep, DeliveryStep;
    if a.Go? && !pc.Idle? {
      if InCommand(pc) {
        CommandCarried(s, pc, work, a.t, a.yes, e, c, refs, n);
      } else if InDelivery(pc) {
        DeliveryCarried(s, pc, work, a.t, a.yes, a.n, e, c, refs, n);
      } else {
        TailCarried(s, pc, work, a.yes, e, c, refs, n);
      }
    } else if pc.Idle? && !a.Go? {
      EnterCarried(s, work, a, e, c, refs, n);
    } else {
      Itself(s);
    }
  }

  // ----- Whole runs -----------------------------------------------------------------------------------

  predicate AllTold(s: State, ts: seq<Pc>) {
    forall j :: 0 <= j < |ts| ==> Told(s, ts[j])
  }

  /** A thread outside every completion and delivery relies on nothing. */
  lemma OutsideTold(u: State, ts: seq<Pc>, i: nat, j: nat)
    requires i < |ts| && j < |ts| && i != j && Alone(Counts(ts), ts[i])
    ensures Told(u, ts[j])
  {
    if i < j { SumOfTwo(Delivery, ts, i, j); SumOfTwo(Completing, ts, i, j); }
    else { SumOfTwo(Delivery, ts, j, i); SumOfTwo(Completing, ts, j, i); }
  }

  lemma StepSound(w: World, i: nat, a: Action)
    requires Safe(w) && i < |w.threads| && Sound(w.s) && AllTold(w.s, w.threads)
    ensures var v := Step(w, i, a); Sound(v.s) && AllTold(v.s, v.threads)
  {
    hide Core, Sound, Told, Calm, Alone, Next;
    var pc := w.threads[i];
    var e := Next(w.s, pc, w.work, a);
    Moved(w.threads, i, e.pc);
    NextCarried(w.s, pc, w.work, a, e, Counts(w.threads), w.refs, |w.epochs|);
    var ts := w.threads[i := e.pc];
    forall j | 0 <= j < |ts| ensures Told(e.s, ts[j]) {
      if j != i {
        if Calm(w.s, e.s) { CalmTold(w.s, e.s, ts[j]); } else { OutsideTold(e.s, w.threads, i, j); }
      }
    }
  }

  lemma {:induction false} RunSound(w: World, run: seq<Event>)
    requires Boots(w)
    ensures var v := Run(w, run); Sound(v.s) && AllTold(v.s, v.threads)
  {
    if run == [] {
    } else {
      var v := Run(w, run[..|run| - 1]);
      var e := run[|run| - 1];
      RunSafe(w, run[..|run| - 1]);
      RunSound(w, run[..|run| - 1]);
      if e.thread < |v.threads| { StepSound(v, e.thread, e.action); }
    }
  }

  // ----- Main results ---------------------------------------------------------------------------------

  /** What `Tiles` says of each frame: consecutive, one constant total, one to 192 bytes, inside the request. */
  lemma {:induction false} FramesAreConsecutive(r: Request, sent: seq<Response>, k: nat)
    requires r.stream && Tiles(r, sent) && k < |sent|
    ensures sent[k].offset == r.offset + SumLen(sent[..k])
    ensures 1 <= sent[k].len <= MAX_DATA && sent[k].total == sent[|sent| - 1].total
    ensures SumLen(sent[..k]) + sent[k].len <= Min(r.maximum, sent[k].total - r.offset)
    decreases |sent|
  {
    var before := sent[..|sent| - 1];
    if k == |sent| - 1 {
      assert sent[..k] == before;
    } else {
      FramesAreConsecutive(r, before, k);
      assert before[..k] == sent[..k];
    }
  }

  /** Over every interleaving: what was enqueued for a request is exact, and while the session is not
      revoked and no frame is on its way, the request is over exactly when its frames add up to
      min(maximum, total - offset); a request that is not a stream is over exactly when its one frame went. */
  lemma {:induction false} StreamsAreExact(w: World, run: seq<Event>)
    requires Boots(w)
    ensures var s := Run(w, run).s;
      && Exact(s.asked, s.sent)
      && (s.active && s.committed && !s.revoked && !s.delivering ==> (s.pending <==> !Whole(s.asked, s.sent)))
  {
    RunSound(w, run);
  }
}
