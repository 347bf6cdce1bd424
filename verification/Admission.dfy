/**
 Who may run: the microphone or an external reservation, an enrollment window, or a recovery restart.
 Each claims its own flag first and checks the other two afterwards, one read at a time. Threads may be
 interleaved between any two of those accesses; what runs under the enrollment lock is one step.
 */
module Admission {
  const WINDOW_MS: nat := 60000

  datatype Kind = Power | Capture | Record | Tap | Arm(playback: bool) | External

  /** The flags of mic_commands.c, main.c and ble_security.c. `pending` is a connection, 0 for none. */
  datatype Shared = Shared(
    busy: nat, armed: nat, railChecked: bool,
    recovery: bool,
    window: bool, closing: bool, pending: nat, codeValid: bool, deadline: nat, owners: nat, denied: bool,
    // history: arms set and captures begun with one
    arms: nat, captures: nat)

  datatype Pc =
    | Idle
    // mic_commands.c
    | MicAsked(k: Kind)            // queue_ble or queue_test, after its first look at recovery
    | MicClaimed(k: Kind)          // busy is claimed, nothing read yet
    | MicSaw(k: Kind)              // recovery was not pending
    | MicFree(k: Kind)             // pairing was not busy either: about to look at or clear the one-shot
    | MicPower(k: Kind)            // a power check has cleared the one-shot, rail_checked is next
    | MicIn(k: Kind)               // admitted
    | MicArming(k: Kind)           // the arm command, about to set the one-shot
    | MicOut(k: Kind, done: bool)  // refused, or done: about to clear busy
    // main.c
    | RecLooked                    // the first look found no microphone
    | RecAsked                     // nor pairing
    | RecClaimed                   // the recovery flag is claimed
    | RecSaw                       // the microphone was idle
    | RecIn                        // pairing was idle too: admitted
    | RecOut                       // about to clear the flag
    // ble_security.c
    | OpenAsked                    // command_open, after it saw no owner
    | OpenFailed                   // the timer could not be set
    | Expiring(deadline: nat)      // the timer found the window elapsed
    | Releasing                    // detached, cancelling outside the lock
    | Dropping(who: nat)           // about to close the enrollment of one connection
    | Replacing                    // local replacement has published its refusal
    | Unpairing                    // and claimed the recorder

  datatype World = World(s: Shared, threads: seq<Pc>)

  predicate PairingBusy(s: Shared) { s.window || s.pending != 0 || s.closing }

  predicate MicBusy(s: Shared) { s.busy != 0 }

  // ----- Steps -----------------------------------------------------------------------------------------

  /** `who` names a connection, `now` is the clock, `yes` stands for every other answer. */
  datatype Action =
    | QueueTap | QueueTest(kind: Kind) | ArmCommand(playback: bool) | Reserve
    | Recovery
    | Open | Expire(now: nat) | Connected(who: nat, now: nat) | ShowPasskey(who: nat, now: nat)
    | Complete(who: nat, now: nat, bonded: bool) | Close(who: nat) | Replace | Disarm
    | Go(now: nat, yes: bool, late: bool)

  function Claim(s: Shared, k: Kind): (Shared, Pc) {
    if s.busy != 0 then (s, Idle)
    else (s.(busy := if k.External? then 2 else 1), MicClaimed(k))
  }

  function Detach(s: Shared): Shared {
    s.(closing := true, window := false, deadline := 0, codeValid := false, pending := 0)
  }

  /** close_enrollment: `who` is 0 for the local close; an elapsed deadline of 0 is none. */
  predicate Finishes(s: Shared, who: nat, elapsed: nat, now: nat) {
    && (who != 0 ==> s.pending == who) && !s.closing
    && (elapsed != 0 ==> s.deadline == elapsed && now >= s.deadline)
    && (s.window || s.pending != 0)
  }

  function Finish(s: Shared, who: nat, elapsed: nat, now: nat): (Shared, Pc) {
    if Finishes(s, who, elapsed, now) then (Detach(s), Releasing) else (s, Idle)
  }

  /** The test connected, accept_pairing and show_passkey share, inside the lock. */
  predicate Admits(s: Shared, now: nat) {
    s.window && !s.closing && now < s.deadline && !MicBusy(s) && !s.recovery
  }

  predicate Expected(s: Shared, who: nat, now: nat, bonded: bool) {
    s.window && !s.closing && s.pending == who && s.codeValid && now < s.deadline && bonded
  }

  function Enter(s: Shared, a: Action): (Shared, Pc) {
    match a
    case QueueTap => if s.recovery then (s, Idle) else (s, MicAsked(Tap))
    case QueueTest(k) => if s.recovery || k.External? || k.Arm? || k.Tap? then (s, Idle) else (s, MicAsked(k))
    case ArmCommand(playback) => Claim(s, Arm(playback))
    case Reserve => Claim(s, External)
    case Recovery => if MicBusy(s) then (s, Idle) else (s, RecLooked)
    case Open => if s.denied || s.owners != 0 then (s, Idle) else (s, OpenAsked)
    case Expire(now) =>
      if s.window && now >= s.deadline then (s, Expiring(s.deadline)) else (s, Idle)
    case Connected(who, now) =>
      if !s.denied && who != 0 && s.owners == 0 && s.pending == 0 && Admits(s, now)
      then (s.(pending := who), Idle) else (s, Idle)
    case ShowPasskey(who, now) =>
      if !s.denied && who != 0 && s.pending == who && Admits(s, now) then (s.(codeValid := true), Idle)
      else (s, if who == 0 then Idle else Dropping(who))
    case Complete(who, now, bonded) =>
      if who == 0 then (s, Idle)
      else if Expected(s, who, now, bonded) then (Detach(s.(owners := 1)), Releasing)
      else (s.(denied := true), Dropping(who))
    case Close(who) => (s, Dropping(who))
    case Replace =>
      if s.denied || PairingBusy(s) || MicBusy(s) || s.recovery then (s, Idle) else (s.(closing := true), Replacing)
    case Disarm => (s.(armed := 0), Idle)
    case Go(_, _, _) => (s, Idle)
  }

  function Go1(s: Shared, pc: Pc, now: nat, yes: bool, late: bool): (Shared, Pc) {
    match pc
    case Idle => (s, Idle)
    case MicAsked(k) => Claim(s, k)
    case MicClaimed(k) => (s, if s.recovery then MicOut(k, false) else MicSaw(k))
    case MicSaw(k) => (s, if PairingBusy(s) then MicOut(k, false) else MicFree(k))
    case MicFree(k) =>
      if k.External? && (s.armed != 0 || !yes) then (s, MicOut(k, false))
      else if k.Capture? || k.Record? then
        var want := if k.Record? then 2 else 1;
        if s.armed == want then (s.(armed := 0, captures := s.captures + 1), MicIn(k)) else (s, MicOut(k, false))
      else if k.Tap? then (s.(armed := 0), MicIn(k))
      else if k.Power? then (s.(armed := 0), MicPower(k))
      else if k.Arm? then (s, if s.railChecked && yes then MicArming(k) else MicOut(k, false))
      else (s, MicIn(k))
    case MicPower(k) => (s.(railChecked := false), MicIn(k))
    case MicIn(k) => (s.(railChecked := s.railChecked || (k.Power? && yes)), MicOut(k, true))
    case MicArming(k) =>
      (s.(armed := if k.Arm? && k.playback then 2 else 1, arms := s.arms + 1), MicOut(k, false))
    case MicOut(k, done) => (s.(busy := if k.External? && done && s.busy != 2 then s.busy else 0), Idle)
    case RecLooked => (s, if PairingBusy(s) then Idle else RecAsked)
    case RecAsked => if s.recovery || !yes then (s, Idle) else (s.(recovery := true), RecClaimed)
    case RecClaimed => (s, if MicBusy(s) then RecOut else RecSaw)
    case RecSaw => (s, if PairingBusy(s) || !yes then RecOut else RecIn)
    case RecIn => (s, if yes then RecIn else RecOut)
    case RecOut => (s.(recovery := false), Idle)
    case OpenAsked =>
      if PairingBusy(s) || MicBusy(s) || s.recovery then (s, Idle)
      else (s.(window := true, deadline := now + WINDOW_MS, codeValid := false), if yes then Idle else OpenFailed)
    case OpenFailed => Finish(s, 0, 0, now)
    case Expiring(d) => Finish(s, 0, d, now)
    case Releasing => (s.(closing := false), Idle)
    case Dropping(who) => Finish(s, who, 0, now)
    case Replacing => if yes then (s, Unpairing) else (s.(closing := false), Idle)
    case Unpairing =>
      if yes then (s.(owners := 0, window := true, deadline := now + WINDOW_MS, codeValid := false, closing := false),
        Idle)
      else (s.(denied := true, owners := if late then 0 else s.owners, window := false, deadline := 0,
        closing := false), Idle)
  }

  function Next(s: Shared, pc: Pc, a: Action): (Shared, Pc) {
    if a.Go? then Go1(s, pc, a.now, a.yes, a.late)
    else if pc.Idle? then Enter(s, a)
    else (s, pc)
  }

  function Step(w: World, i: nat, a: Action): World
    requires i < |w.threads|
  {
    var (u, pc) := Next(w.s, w.threads[i], a);
    World(u, w.threads[i := pc])
  }

  // ----- What threads hold -----------------------------------------------------------------------------

  function One(b: bool): nat { if b then 1 else 0 }

  /** Threads by what they hold: the busy flag, as an external reservation, having seen no recovery,
      having seen no pairing either; the recovery flag, having seen no microphone, being admitted; the closing flag. */
  datatype Tally = Tally(busy: nat, external: nat, micSaw: nat, micIn: nat, recovery: nat, recSaw: nat, recIn: nat,
    closing: nat)

  function Held(pc: Pc): Tally {
    match pc
    case MicClaimed(k) => Tally(1, One(k.External?), 0, 0, 0, 0, 0, 0)
    case MicSaw(k) => Tally(1, One(k.External?), 1, 0, 0, 0, 0, 0)
    case MicFree(k) => Tally(1, One(k.External?), 0, 1, 0, 0, 0, 0)
    case MicPower(k) => Tally(1, One(k.External?), 0, 1, 0, 0, 0, 0)
    case MicIn(k) => Tally(1, One(k.External?), 0, 1, 0, 0, 0, 0)
    case MicArming(k) => Tally(1, One(k.External?), 0, 1, 0, 0, 0, 0)
    case MicOut(k, _) => Tally(1, One(k.External?), 0, 0, 0, 0, 0, 0)
    case RecClaimed => Tally(0, 0, 0, 0, 1, 0, 0, 0)
    case RecSaw => Tally(0, 0, 0, 0, 1, 1, 0, 0)
    case RecIn => Tally(0, 0, 0, 0, 1, 0, 1, 0)
    case RecOut => Tally(0, 0, 0, 0, 1, 0, 0, 0)
    case Releasing => Tally(0, 0, 0, 0, 0, 0, 0, 1)
    case Replacing => Tally(0, 0, 0, 0, 0, 0, 0, 1)
    case Unpairing => Tally(0, 0, 0, 0, 0, 0, 0, 1)
    case _ => Tally(0, 0, 0, 0, 0, 0, 0, 0)
  }

  function Plus(a: Tally, b: Tally): Tally {
    Tally(a.busy + b.busy, a.external + b.external, a.micSaw + b.micSaw, a.micIn + b.micIn, a.recovery + b.recovery,
          a.recSaw + b.recSaw, a.recIn + b.recIn, a.closing + b.closing)
  }

  /** Every stage is a stage of a claim. */
  predicate Nested(c: Tally) {
    c.micSaw + c.micIn <= c.busy && c.external <= c.busy && c.recSaw + c.recIn <= c.recovery
  }

  function Sum(ts: seq<Pc>): (c: Tally)
    ensures Nested(c)
  {
    if ts == [] then Tally(0, 0, 0, 0, 0, 0, 0, 0) else Plus(Sum(ts[..|ts| - 1]), Held(ts[|ts| - 1]))
  }

  lemma {:induction false} SumUpdate(ts: seq<Pc>, i: nat, pc: Pc)
    requires i < |ts|
    ensures Plus(Sum(ts[i := pc]), Held(ts[i])) == Plus(Sum(ts), Held(pc))
  {
    hide Held, Plus, Nested;
    var us := ts[i := pc];
    var front := ts[..|ts| - 1];
    if i == |ts| - 1 {
      assert us[..|us| - 1] == front;
      PlusSwap(Sum(front), Sum(front), Held(pc), Held(ts[i]));
    } else {
      assert us[..|us| - 1] == front[i := pc];
      SumUpdate(front, i, pc);
      PlusOnce(Sum(front[i := pc]), Sum(front), Held(ts[i]), Held(pc), Held(ts[|ts| - 1]));
    }
  }

  lemma PlusSwap(x: Tally, y: Tally, a: Tally, b: Tally)
    requires x == y
    ensures Plus(Plus(x, a), b) == Plus(Plus(y, b), a)
  {
  }

  lemma PlusOnce(x: Tally, y: Tally, a: Tally, b: Tally, h: Tally)
    requires Plus(x, a) == Plus(y, b)
    ensures Plus(Plus(x, h), a) == Plus(Plus(y, h), b)
  {
  }

  // ----- The invariant ---------------------------------------------------------------------------------

  /** Every flag is held by exactly the threads that will clear it, and nobody who got past its checks
      shares the floor. */
  predicate Safe(s: Shared, c: Tally) {
    && s.busy <= 2 && c.busy == One(s.busy != 0) && c.external == One(s.busy == 2) && c.recovery == One(s.recovery)
      && c.closing == One(s.closing)
    && (c.micSaw + c.micIn > 0 ==> c.recSaw + c.recIn == 0)
    && (c.micIn > 0 ==> !PairingBusy(s)) && (c.recIn > 0 ==> !PairingBusy(s))
    && (s.pending != 0 ==> s.window && s.owners == 0) && (s.codeValid ==> s.pending != 0)
    && (s.closing ==> !s.window)
    && s.captures + One(s.armed != 0) <= s.arms
  }

  predicate Calls(a: Action) { a.QueueTap? || a.QueueTest? || a.ArmCommand? || a.Reserve? || a.Recovery? || a.Disarm? }

  lemma CallSafe(s: Shared, a: Action, e: (Shared, Pc), c: Tally, d: Tally)
    requires Calls(a) && Safe(s, c) && Nested(c) && e == Enter(s, a) && d == Plus(c, Held(e.1))
    ensures Safe(e.0, d)
  {
  }

  predicate Answers(a: Action) { a.Connected? || a.ShowPasskey? || a.Complete? }

  lemma AnswerSafe(s: Shared, a: Action, e: (Shared, Pc), c: Tally, d: Tally)
    requires Answers(a) && Safe(s, c) && Nested(c) && e == Enter(s, a) && d == Plus(c, Held(e.1))
    ensures Safe(e.0, d)
  {
  }

  lemma PairSafe(s: Shared, a: Action, e: (Shared, Pc), c: Tally, d: Tally)
    requires !Calls(a) && !Answers(a) && Safe(s, c) && Nested(c) && e == Enter(s, a) && d == Plus(c, Held(e.1))
    ensures Safe(e.0, d)
  {
  }

  predicate InMic(pc: Pc) {
    pc.MicAsked? || pc.MicClaimed? || pc.MicSaw? || pc.MicFree? || pc.MicPower? || pc.MicIn? || pc.MicArming?
      || pc.MicOut?
  }

  predicate InRecovery(pc: Pc) {
    pc.RecLooked? || pc.RecAsked? || pc.RecClaimed? || pc.RecSaw? || pc.RecIn? || pc.RecOut?
  }

  predicate Moves(s: Shared, pc: Pc, e: (Shared, Pc), c: Tally, d: Tally) {
    Safe(s, c) && Nested(c) && Nested(d) && Plus(d, Held(pc)) == Plus(c, Held(e.1))
  }

  lemma AskSafe(s: Shared, pc: Pc, now: nat, yes: bool, late: bool, e: (Shared, Pc), c: Tally, d: Tally)
    requires (pc.MicAsked? || pc.MicClaimed?) && e == Go1(s, pc, now, yes, late) && Moves(s, pc, e, c, d)
    ensures Safe(e.0, d)
  {
  }

  lemma MicSafe(s: Shared, pc: Pc, now: nat, yes: bool, late: bool, e: (Shared, Pc), c: Tally, d: Tally)
    requires (pc.MicSaw? || pc.MicPower? || pc.MicIn? || pc.MicArming?) && e == Go1(s, pc, now, yes, late)
      && Moves(s, pc, e, c, d)
    ensures Safe(e.0, d)
  {
  }

  lemma MicOutSafe(s: Shared, pc: Pc, now: nat, yes: bool, late: bool, e: (Shared, Pc), c: Tally, d: Tally)
    requires pc.MicOut? && e == Go1(s, pc, now, yes, late) && Moves(s, pc, e, c, d)
    ensures Safe(e.0, d)
  {
  }

  /** A request that only looks. */
  lemma MicFreeSafe(s: Shared, pc: Pc, now: nat, yes: bool, late: bool, e: (Shared, Pc), c: Tally, d: Tally)
    requires pc.MicFree? && (pc.k.External? || pc.k.Arm?) && e == Go1(s, pc, now, yes, late) && Moves(s, pc, e, c, d)
    ensures Safe(e.0, d)
  {
    hide PairingBusy;
    assert e.0 == s && (e.1.MicOut? || e.1.MicIn? || e.1.MicArming?);
  }

  /** A request that clears the one-shot. */
  lemma ClearsSafe(s: Shared, pc: Pc, now: nat, yes: bool, late: bool, e: (Shared, Pc), c: Tally, d: Tally)
    requires pc.MicFree? && (pc.k.Tap? || pc.k.Power?) && e == Go1(s, pc, now, yes, late) && Moves(s, pc, e, c, d)
    ensures Safe(e.0, d)
  {
    assert e.0 == s.(armed := 0);
  }

  /** A capture is admitted only by taking the one-shot. */
  lemma CaptureSafe(s: Shared, pc: Pc, now: nat, yes: bool, late: bool, e: (Shared, Pc), c: Tally, d: Tally)
    requires pc.MicFree? && (pc.k.Capture? || pc.k.Record?) && e == Go1(s, pc, now, yes, late) && Moves(s, pc, e, c, d)
    requires s.armed == if pc.k.Record? then 2 else 1
    ensures Safe(e.0, d)
  {
  }

  lemma UnarmedSafe(s: Shared, pc: Pc, now: nat, yes: bool, late: bool, e: (Shared, Pc), c: Tally, d: Tally)
    requires pc.MicFree? && (pc.k.Capture? || pc.k.Record?) && e == Go1(s, pc, now, yes, late) && Moves(s, pc, e, c, d)
    requires s.armed != if pc.k.Record? then 2 else 1
    ensures Safe(e.0, d)
  {
  }

  lemma RecoverySafe(s: Shared, pc: Pc, now: nat, yes: bool, late: bool, e: (Shared, Pc), c: Tally, d: Tally)
    requires InRecovery(pc) && e == Go1(s, pc, now, yes, late) && Moves(s, pc, e, c, d)
    ensures Safe(e.0, d)
  {
  }

  lemma PairingSafe(s: Shared, pc: Pc, now: nat, yes: bool, late: bool, e: (Shared, Pc), c: Tally, d: Tally)
    requires !InMic(pc) && !InRecovery(pc) && !pc.OpenFailed? && !pc.Expiring? && !pc.Dropping?
    requires e == Go1(s, pc, now, yes, late) && Moves(s, pc, e, c, d)
    ensures Safe(e.0, d)
  {
  }

  lemma FinishSafe(s: Shared, pc: Pc, now: nat, yes: bool, late: bool, e: (Shared, Pc), c: Tally, d: Tally)
    requires (pc.OpenFailed? || pc.Expiring? || pc.Dropping?) && e == Go1(s, pc, now, yes, late)
      && Moves(s, pc, e, c, d)
    ensures Safe(e.0, d)
  {
  }

  lemma {:induction false} StepSafe(w: World, i: nat, a: Action)
    requires i < |w.threads| && Safe(w.s, Sum(w.threads))
    ensures var v := Step(w, i, a); Safe(v.s, Sum(v.threads))
  {
    hide Safe, Enter, Go1, Sum, Held;
    var pc := w.threads[i];
    var e := Next(w.s, pc, a);
    var ts := w.threads[i := e.1];
    SumUpdate(w.threads, i, e.1);
    if a.Go? {
      MovesOn(w.s, pc, a, e, Sum(w.threads), Sum(ts));
    } else if pc.Idle? {
      IdleHolds(Sum(ts), Sum(w.threads), e.1);
      if Calls(a) {
        CallSafe(w.s, a, e, Sum(w.threads), Sum(ts));
      } else if Answers(a) {
        AnswerSafe(w.s, a, e, Sum(w.threads), Sum(ts));
      } else {
        PairSafe(w.s, a, e, Sum(w.threads), Sum(ts));
      }
    } else {
      SameHolds(Sum(ts), Sum(w.threads), pc);
    }
  }

  lemma MovesOn(s: Shared, pc: Pc, a: Action, e: (Shared, Pc), c: Tally, d: Tally)
    requires a.Go? && e == Next(s, pc, a) && Moves(s, pc, e, c, d)
    ensures Safe(e.0, d)
  {
    hide Safe, Enter, Go1, Held, Moves;
    if InMic(pc) {
      if pc.MicOut? {
        MicOutSafe(s, pc, a.now, a.yes, a.late, e, c, d);
      } else if pc.MicAsked? || pc.MicClaimed? {
        AskSafe(s, pc, a.now, a.yes, a.late, e, c, d);
      } else if !pc.MicFree? {
        MicSafe(s, pc, a.now, a.yes, a.late, e, c, d);
      } else if pc.k.Capture? || pc.k.Record? {
        if s.armed == (if pc.k.Record? then 2 else 1) {
          CaptureSafe(s, pc, a.now, a.yes, a.late, e, c, d);
        } else {
          UnarmedSafe(s, pc, a.now, a.yes, a.late, e, c, d);
        }
      } else if pc.k.Tap? || pc.k.Power? {
        ClearsSafe(s, pc, a.now, a.yes, a.late, e, c, d);
      } else {
        MicFreeSafe(s, pc, a.now, a.yes, a.late, e, c, d);
      }
    } else if InRecovery(pc) {
      RecoverySafe(s, pc, a.now, a.yes, a.late, e, c, d);
    } else if pc.OpenFailed? || pc.Expiring? || pc.Dropping? {
      FinishSafe(s, pc, a.now, a.yes, a.late, e, c, d);
    } else {
      PairingSafe(s, pc, a.now, a.yes, a.late, e, c, d);
    }
  }

  lemma IdleHolds(d: Tally, c: Tally, pc: Pc)
    requires Plus(d, Held(Idle)) == Plus(c, Held(pc))
    ensures d == Plus(c, Held(pc))
  {
  }

  lemma SameHolds(d: Tally, c: Tally, pc: Pc)
    requires Plus(d, Held(pc)) == Plus(c, Held(pc))
    ensures d == c
  {
  }

  // ----- Whole runs -----------------------------------------------------------------------------------

  datatype Event = Event(thread: nat, action: Action)

  function Run(w: World, run: seq<Event>): (v: World)
    ensures |v.threads| == |w.threads|
  {
    if run == [] then w
    else
      var v := Run(w, run[..|run| - 1]);
      var e := run[|run| - 1];
      if e.thread < |v.threads| then Step(v, e.thread, e.action) else v
  }

  /** As the program starts: no flag set, no thread busy; an owner may be bonded already. */
  predicate Boots(w: World) {
    var s := w.s;
    && s.busy == 0 && s.armed == 0 && !s.railChecked && !s.recovery
    && !s.window && !s.closing && s.pending == 0 && !s.codeValid && s.arms == 0 && s.captures == 0
    && forall j :: 0 <= j < |w.threads| ==> w.threads[j].Idle?
  }

  predicate Nothing(c: Tally) {
    c.busy == 0 && c.external == 0 && c.micSaw == 0 && c.micIn == 0 && c.recovery == 0 && c.recSaw == 0 && c.recIn == 0
    && c.closing == 0
  }

  lemma {:induction false} SumOfIdle(ts: seq<Pc>)
    requires forall j :: 0 <= j < |ts| ==> ts[j].Idle?
    ensures Nothing(Sum(ts))
  {
    hide Held;
    if ts != [] {
      SumOfIdle(ts[..|ts| - 1]);
      IdleHeld(ts[|ts| - 1]);
    }
  }

  lemma IdleHeld(pc: Pc)
    requires pc.Idle?
    ensures Nothing(Held(pc))
  {
  }

  lemma BootsSafe(s: Shared, c: Tally)
    requires s.busy == 0 && s.armed == 0 && !s.recovery && !s.window && !s.closing && s.pending == 0 && !s.codeValid
    requires s.arms == 0 && s.captures == 0 && Nothing(c)
    ensures Safe(s, c)
  {
  }

  lemma {:induction false} RunSafe(w: World, run: seq<Event>)
    requires Boots(w)
    ensures var v := Run(w, run); Safe(v.s, Sum(v.threads))
  {
    hide Step, Sum, Safe;
    if run == [] {
      SumOfIdle(w.threads);
      BootsSafe(w.s, Sum(w.threads));
    } else {
      RunSafe(w, run[..|run| - 1]);
      var v := Run(w, run[..|run| - 1]);
      var e := run[|run| - 1];
      if e.thread < |v.threads| { StepSafe(v, e.thread, e.action); }
    }
  }

  // ----- Main results ---------------------------------------------------------------------------------

  /** Over every interleaving at most one holds: admitted microphone or external work, an enrollment
      window open or closing, an admitted recovery or restart. */
  lemma OneAtATime(w: World, run: seq<Event>)
    requires Boots(w)
    ensures var v := Run(w, run);
      Sum(v.threads).micIn + One(PairingBusy(v.s)) + Sum(v.threads).recIn <= 1
  {
    RunSafe(w, run);
  }

  /** No claim leaks: when every call has returned the flags are clear, and only a window can be left open. */
  lemma NothingLeaks(w: World, run: seq<Event>)
    requires Boots(w) && forall j :: 0 <= j < |w.threads| ==> Run(w, run).threads[j].Idle?
    ensures var s := Run(w, run).s; s.busy == 0 && !s.recovery && !s.closing && (PairingBusy(s) ==> s.window)
  {
    RunSafe(w, run);
    SumOfIdle(Run(w, run).threads);
  }

  /** Captures never outnumber arms, so no arm is spent twice. */
  lemma {:induction false} OneCapturePerArm(w: World, run: seq<Event>)
    requires Boots(w)
    ensures var s := Run(w, run).s; s.captures + One(s.armed != 0) <= s.arms
  {
    RunSafe(w, run);
  }

  /** A passkey is shown only while its own connection is pending in an open window of a device without
      an owner. */
  lemma PasskeyNeedsWindow(w: World, run: seq<Event>)
    requires Boots(w)
    ensures var s := Run(w, run).s; s.codeValid ==> s.window && !s.closing && s.pending != 0 && s.owners == 0
  {
    RunSafe(w, run);
  }

  /** Ownership changes in two ways only: the pending connection of an unexpired window completes with the
      code shown and nobody else admitted, or the local replacement, alone on the floor, gives it up. */
  lemma {:induction false} OwnershipChanges(w: World, run: seq<Event>, i: nat, a: Action)
    requires Boots(w) && i < |w.threads| && Step(Run(w, run), i, a).s.owners != Run(w, run).s.owners
    ensures var v := Run(w, run);
      OwnerMay(v.s, v.threads[i], a) && Sum(v.threads).micIn == 0 && Sum(v.threads).recIn == 0
  {
    hide Sum, Run, Enter, Go1;
    var v := Run(w, run);
    RunSafe(w, run);
    SumAtLeast(v.threads, i);
    OwnerStep(v.s, v.threads[i], a, Sum(v.threads));
  }

  predicate OwnerMay(s: Shared, pc: Pc, a: Action) {
    if a.Complete? then s.pending == a.who && s.codeValid && s.window && a.now < s.deadline && s.owners == 0
    else pc == Unpairing && s.closing
  }

  lemma OwnerEnter(s: Shared, pc: Pc, a: Action, c: Tally)
    requires !a.Go? && Safe(s, c) && Next(s, pc, a).0.owners != s.owners
    ensures OwnerMay(s, pc, a) && PairingBusy(s)
  {
  }

  lemma OwnerStep(s: Shared, pc: Pc, a: Action, c: Tally)
    requires Safe(s, c) && c.closing >= Held(pc).closing && Next(s, pc, a).0.owners != s.owners
    ensures OwnerMay(s, pc, a) && PairingBusy(s)
  {
    hide Enter;
    if !a.Go? { OwnerEnter(s, pc, a, c); }
  }

  lemma {:induction false} SumAtLeast(ts: seq<Pc>, i: nat)
    requires i < |ts|
    ensures Sum(ts).closing >= Held(ts[i]).closing
  {
    if i < |ts| - 1 { SumAtLeast(ts[..|ts| - 1], i); }
  }
}
