/**
 The broker as the program keeps it: one static record, whose fields are assigned one after the other
 by the code that runs with interrupts locked. One method for each such stretch; every method is
 proved to make exactly the step `BrokerRuns` interleaves.
 */
module BrokerMachine {
  import opened Broker

  // ----- Section functions, case by case ----------------------------------------------------------------

  lemma TickIs(s: State, t: int)
    ensures Tick(s, t) ==
      var u := Clock(s, t);
      if ClockOk(s, t) && u.active && t >= u.expires then u.(revoked := true) else u
  {
  }

  lemma RetiredIs(s: State, epoch: nat, ok: bool)
    ensures Retired(s, epoch, ok) ==
      if !RetireTaken(s, epoch) then s
      else if ok then Clear(s)
      else s.(fault := true, causes := s.causes.When(true, RetireResult))
  {
  }

  lemma PolledIs(s: State, ready: bool, t: int)
    ensures Polled(s, ready, t) ==
      var u := Tick(s, t);
      if !s.initialized then s else if u.active && !ready then u.(revoked := true) else u
  {
  }

  lemma DeliverEndIs(s: State, epoch: nat, p: Response, ok: bool, retry: bool)
    ensures DeliverEnd(s, epoch, p, ok, retry) ==
      if !s.active || s.epoch != epoch || !s.delivering then s
      else if retry then s.(delivering := false)
      else if s.streamMore then
        s.(revoked := s.revoked || !ok, streamSent := if ok then s.streamSent + p.len else s.streamSent,
           terminal := false, terminalOk := false, delivering := false, streamMore := false, response := NO_RESPONSE)
      else
        s.(revoked := s.revoked || !ok, pending := false, terminal := false, terminalOk := false, delivering := false,
           response := NO_RESPONSE, request := NO_REQUEST)
  {
  }

  /** The test at the head of the second command section, after the clock was read. */
  predicate Refuses(u: State, epoch: nat, until: nat, permitted: bool, ok: bool, t: int) {
    !permitted || !ok || u.fault || !u.active || u.epoch != epoch || u.revoked || t >= until
  }

  lemma CommitOkIs(s: State, epoch: nat, until: nat, permitted: bool, t: int)
    ensures CommitOk(s, epoch, until, permitted, t) ==
      !Refuses(if permitted then Clock(s, t) else s, epoch, until, permitted, ClockOk(s, t), t)
  {
  }

  lemma NoCause(s: State, c: Cause)
    ensures s.causes.When(false, c) == s.causes
  {
  }

  lemma UnpermittedIs(s: State, r: Request, epoch: nat, until: nat, t: int)
    ensures Commit(s, r, epoch, until, false, t) == s.(revoked := true)
  {
    hide Causes.When;
    NoCause(s, ClockBackwards);
  }

  lemma BackwardsIs(s: State, r: Request, epoch: nat, until: nat, t: int)
    requires !ClockOk(s, t)
    ensures Commit(s, r, epoch, until, true, t) == Clock(s, t).(revoked := true)
  {
    hide Causes.When;
  }

  lemma LapsedIs(s: State, r: Request, epoch: nat, until: nat, t: int)
    requires ClockOk(s, t) && !CommitOk(s, epoch, until, true, t)
    ensures Commit(s, r, epoch, until, true, t) == Clock(s, t).(revoked := true)
  {
    hide CommitOk, Causes.When;
    NoCause(s, ClockBackwards);
  }

  /** The record as it is once a request is committed. */
  function Taken(u: State, r: Request): State {
    u.(request := r, pending := true, submitting := true, lastSequence := r.sequence,
       streamSent := 0, streamTotal := 0, streamMore := false, committed := true, asked := r, sent := [])
  }

  lemma TakenIs(s: State, r: Request, epoch: nat, until: nat, t: int)
    requires CommitOk(s, epoch, until, true, t) && ClockOk(s, t)
    ensures Commit(s, r, epoch, until, true, t) == Taken(Clock(s, t), r)
  {
    hide CommitOk, Causes.When;
    NoCause(s, ClockBackwards);
  }

  lemma CommitIs(s: State, r: Request, epoch: nat, until: nat, permitted: bool, t: int)
    ensures Commit(s, r, epoch, until, permitted, t) ==
      if CommitOk(s, epoch, until, permitted, t) then Taken(Clock(s, t), r)
      else (if permitted then Clock(s, t) else s).(revoked := true)
    ensures CommitOk(s, epoch, until, permitted, t) ==> permitted
  {
    hide Commit, Clock, Taken;
    if CommitOk(s, epoch, until, permitted, t) {
      TakenIs(s, r, epoch, until, t);
    } else {
      if !permitted {
        UnpermittedIs(s, r, epoch, until, t);
      } else if ClockOk(s, t) {
        LapsedIs(s, r, epoch, until, t);
      } else {
        BackwardsIs(s, r, epoch, until, t);
      }
    }
  }

  lemma NotQueuedIs(s: State)
    requires !s.queued
    ensures Handler(s) == s
  {
    hide Deliverable, Causes.When;
    NoCause(s, BadDelivery);
  }

  lemma DeliverableIs(s: State)
    requires s.queued && Deliverable(s)
    ensures Handler(s) == s.(queued := false, actors := s.actors + 1)
  {
    hide Deliverable, Causes.When;
    NoCause(s, BadDelivery);
  }

  lemma NothingThereIs(s: State)
    requires s.queued && !Deliverable(s)
    ensures Handler(s) == Fault(s.(queued := false), BadDelivery)
  {
    hide Deliverable, Causes.When;
  }

  lemma HandlerIs(s: State)
    ensures Handler(s) ==
      if !s.queued then s
      else if Deliverable(s) then s.(queued := false, actors := s.actors + 1)
      else Fault(s.(queued := false), BadDelivery)
  {
    hide Handler, Deliverable, Fault;
    if !s.queued {
      NotQueuedIs(s);
    } else if Deliverable(s) {
      DeliverableIs(s);
    } else {
      NothingThereIs(s);
    }
  }

  lemma HookFailedIs(s: State, epoch: nat)
    ensures RetireHookFailed(s, epoch) ==
      var u := s.(fault := true, causes := s.causes.When(true, RetireHook));
      if s.active && s.epoch == epoch then u.(revoked := true) else u
  {
  }

  /** The verdict once the clock was read and found good. */
  function VerdictIn(u: State, conn: nat, r: Request, t: nat): Verdict {
    if u.active && (u.revoked || u.pending || u.actors > 0 || u.retireQueued) then Busy
    else if !u.active then
      if !r.catalog || r.offset != 0 || u.lastEpoch >= EPOCH_MAX || (u.priorValid && r.nonce == u.priorNonce)
         || t > TIME_MAX - SESSION_MS then Refused
      else Opened
    else if u.conn != conn || u.nonce != r.nonce || r.sequence <= u.lastSequence || u.fullProfile != r.full then Refused
    else Joined
  }

  lemma VerdictIs(s: State, conn: nat, r: Request, t: int)
    ensures OpenVerdict(s, conn, r, t) ==
      if !s.initialized || s.fault || !ClockOk(s, t) then Refused else VerdictIn(Tick(s, t), conn, r, t)
  {
  }

  function Started(u: State, conn: nat, r: Request, t: nat): State {
    u.(active := true, conn := conn, lastEpoch := u.lastEpoch + 1, epoch := u.lastEpoch + 1,
       fullProfile := r.full, expires := t + SESSION_MS, nonce := r.nonce)
  }

  function Until(u: State, t: nat): nat {
    var budget := if u.fullProfile && !u.everSubmitted then FULL_OPEN_MS else REQUEST_MS;
    if u.expires - t > budget then t + budget else u.expires
  }

  function Entered(u: State, t: nat): State { u.(actors := u.actors + 1, deadline := Until(u, t)) }

  lemma OpenedIs(s: State, conn: nat, r: Request, t: int)
    requires OpenVerdict(s, conn, r, t) == Opened && s.initialized && !s.fault && t >= 0
    ensures OpenState(s, conn, r, t) == Entered(Started(Tick(s, t), conn, r, t), t)
  {
    hide OpenVerdict;
  }

  lemma JoinedIs(s: State, conn: nat, r: Request, t: int)
    requires OpenVerdict(s, conn, r, t) == Joined && s.initialized && !s.fault && t >= 0
    ensures OpenState(s, conn, r, t) == Entered(Tick(s, t), t)
  {
    hide OpenVerdict;
  }

  lemma ShutIs(s: State, conn: nat, r: Request, t: int)
    requires OpenVerdict(s, conn, r, t) == Refused || OpenVerdict(s, conn, r, t) == Busy
    ensures OpenState(s, conn, r, t) == TickIf(s.initialized && !s.fault, s, t)
  {
    hide OpenVerdict;
  }

  lemma NotTicked(s: State, t: int)
    ensures TickIf(false, s, t) == s
  {
  }

  lemma KickIs(s: State)
    ensures Kick(s) == if !KickReady(s) then s else if !s.everSubmitted then Clear(s) else s.(retireQueued := true)
  {
    hide Clear;
  }

  class RecordingBroker {
    var broker: State

    constructor (zero: State)
      ensures broker == zero
    {
      broker := zero;
    }

    method Latch(c: Cause)
      modifies this
      ensures broker == Fault(old(broker), c)
    {
      broker := broker.(fault := true, revoked := true, causes := broker.causes.When(true, c));
    }

    method ClockLocked(t: int) returns (ok: bool)
      modifies this
      ensures broker == Clock(old(broker), t) && ok == ClockOk(old(broker), t)
    {
      if t < broker.lastNow {
        Latch(ClockBackwards);
        return false;
      }
      broker := broker.(lastNow := t);
      return true;
    }

    method ClockAndExpire(t: int) returns (ok: bool)
      modifies this
      ensures broker == Tick(old(broker), t) && ok == ClockOk(old(broker), t)
    {
      hide Broker.Tick, Broker.Clock;
      TickIs(broker, t);
      ok := ClockLocked(t);
      if !ok { return; }
      if broker.active && t >= broker.expires {
        broker := broker.(revoked := true);
        return;
      }
    }

    method LiveSection(epoch: nat, conn: nat, t: int) returns (good: bool)
      modifies this
      ensures broker == Tick(old(broker), t) && good == Live(old(broker), t, epoch, conn)
    {
      good := ClockAndExpire(t);
      good := good && !broker.fault && broker.active && broker.epoch == epoch && broker.conn == conn
              && !broker.revoked && t < broker.deadline;
    }

    method ClearLocked() returns (dropped: nat)
      modifies this
      ensures broker == Clear(old(broker)) && dropped == old(broker).conn
    {
      dropped := broker.conn;
      broker := broker.(priorNonce := broker.nonce, priorValid := true);
      broker := broker.(conn := 0, active := false, revoked := false, pending := false, submitting := false,
        completing := false);
      broker := broker.(terminal := false, terminalOk := false, delivering := false, queued := false,
                        retireQueued := false, everSubmitted := false);
      broker := broker.(lastSequence := 0, expires := 0, deadline := 0, streamSent := 0, streamTotal := 0,
        streamMore := false);
      broker := broker.(nonce := 0, request := NO_REQUEST, response := NO_RESPONSE);
      broker := broker.(committed := false, asked := NO_REQUEST, sent := []);
    }

    /** `drop`: a reference to give back; `retire`: the epoch to hand to the retire hook, 0 for none. */
    method KickSection() returns (drop: bool, retire: nat)
      modifies this
      ensures broker == Kick(old(broker))
      ensures drop == (KickReady(old(broker)) && !old(broker).everSubmitted)
      ensures retire == if KickReady(old(broker)) && old(broker).everSubmitted then old(broker).epoch else 0
    {
      hide Broker.Kick, Broker.Clear;
      KickIs(broker);
      drop, retire := false, 0;
      if broker.active && broker.revoked && !broker.pending && broker.actors == 0 && !broker.retireQueued {
        if !broker.everSubmitted {
          var dropped := ClearLocked();
          drop := true;
        } else {
          broker := broker.(retireQueued := true);
          retire := broker.epoch;
        }
      }
    }

    method RetireFailedSection(epoch: nat)
      modifies this
      ensures broker == RetireHookFailed(old(broker), epoch)
    {
      hide Broker.RetireHookFailed;
      HookFailedIs(broker, epoch);
      broker := broker.(fault := true, causes := broker.causes.When(true, RetireHook));
      if broker.active && broker.epoch == epoch { broker := broker.(revoked := true); }
    }

    method LeaveSection()
      modifies this
      ensures broker == Leave(old(broker))
    {
      if broker.actors == 0 {
        Latch(Underflow);
      } else {
        broker := broker.(actors := broker.actors - 1);
      }
    }

    method OpenSection(conn: nat, r: Request, t: int) returns (verdict: Verdict, epoch: nat, until: nat)
      modifies this
      ensures broker == OpenState(old(broker), conn, r, t) && verdict == OpenVerdict(old(broker), conn, r, t)
      ensures verdict.Joined? || verdict.Opened? ==> epoch == broker.epoch && until == broker.deadline
    {
      hide Broker.TickIf, Broker.OpenState, Broker.OpenVerdict;
      ghost var was := broker;
      verdict, epoch, until := Refused, 0, 0;
      VerdictIs(was, conn, r, t);
      if !broker.initialized || broker.fault {
        ShutIs(was, conn, r, t);
        NotTicked(was, t);
        return;
      }
      var ok := ClockAndExpire(t);
      if !ok {
        ShutIs(was, conn, r, t);
        return;
      }
      if broker.active && (broker.revoked || broker.pending || broker.actors > 0 || broker.retireQueued) {
        verdict := Busy;
        ShutIs(was, conn, r, t);
        return;
      }
      if !broker.active {
        if !r.catalog || r.offset != 0 || broker.lastEpoch >= EPOCH_MAX
          || (broker.priorValid && r.nonce == broker.priorNonce)
           || t > TIME_MAX - SESSION_MS {
          ShutIs(was, conn, r, t);
          return;
        }
        verdict := Opened;
        StartSession(conn, r, t);
        EnterSession(t);
        OpenedIs(was, conn, r, t);
      } else if broker.conn != conn || r.nonce != broker.nonce || r.sequence <= broker.lastSequence
                || broker.fullProfile != r.full {
        ShutIs(was, conn, r, t);
        return;
      } else {
        verdict := Joined;
        EnterSession(t);
        JoinedIs(was, conn, r, t);
      }
      epoch, until := broker.epoch, broker.deadline;
    }

    method StartSession(conn: nat, r: Request, t: nat)
      modifies this
      ensures broker == Started(old(broker), conn, r, t)
    {
      broker := broker.(active := true, conn := conn, lastEpoch := broker.lastEpoch + 1);
      broker := broker.(epoch := broker.lastEpoch, fullProfile := r.full, expires := t + SESSION_MS, nonce := r.nonce);
    }

    method EnterSession(t: nat)
      modifies this
      ensures broker == Entered(old(broker), t)
    {
      hide Until;
      var until := RequestDeadline(t);
      broker := broker.(actors := broker.actors + 1, deadline := until);
    }

    /** The end of the request's budget, or of the session if that comes first. */
    method RequestDeadline(t: nat) returns (until: nat)
      ensures until == Until(broker, t)
    {
      var budget := if broker.fullProfile && !broker.everSubmitted then FULL_OPEN_MS else REQUEST_MS;
      until := if broker.expires - t > budget then t + budget else broker.expires;
    }

    method CommitSection(r: Request, epoch: nat, until: nat, permitted: bool, t: int) returns (ok: bool)
      modifies this
      ensures broker == Commit(old(broker), r, epoch, until, permitted, t)
      ensures ok == CommitOk(old(broker), epoch, until, permitted, t)
    {
      hide Broker.Clock, Broker.Commit, Broker.CommitOk;
      CommitIs(broker, r, epoch, until, permitted, t);
      CommitOkIs(broker, epoch, until, permitted, t);
      ok := permitted;
      if ok { ok := ClockLocked(t); }
      if !ok || broker.fault || !broker.active || broker.epoch != epoch || broker.revoked || t >= until {
        broker := broker.(revoked := true);
        return false;
      }
      broker := broker.(request := r, pending := true, submitting := true, lastSequence := r.sequence);
      broker := broker.(streamSent := 0, streamTotal := 0, streamMore := false);
      broker := broker.(committed := true, asked := r, sent := []);
      return true;
    }

    method SubmittedSection(accepted: bool)
      modifies this
      ensures broker == Submitted(old(broker), accepted)
    {
      broker := broker.(submitting := false);
      if accepted {
        broker := broker.(everSubmitted := true);
        return;
      }
      var contradicted := broker.terminal || broker.completing;
      broker := broker.(revoked := true, pending := false, terminal := false, terminalOk := false,
        response := NO_RESPONSE);
      if contradicted {
        broker := broker.(fault := true, everSubmitted := true,
          causes := broker.causes.When(true, ContradictorySubmit));
        return;
      }
    }

    method CompleteSection(epoch: nat, sequence: nat) returns (taken: bool, r: Request)
      modifies this
      ensures taken == CompleteTaken(old(broker), epoch, sequence)
      ensures broker == if taken then CompleteBegin(old(broker)) else old(broker)
      ensures taken ==> r == old(broker).request
    {
      if !broker.initialized || !broker.active || broker.epoch != epoch || !broker.pending || broker.completing
         || broker.terminal || broker.request.sequence != sequence {
        return false, NO_REQUEST;
      }
      broker := broker.(completing := true, actors := broker.actors + 1);
      return true, broker.request;
    }

    method CompleteEndSection(r: Request, p: Response, success: bool, valid: bool, more: bool)
      modifies this
      ensures broker == CompleteEnd(old(broker), r, p, success, valid, more)
    {
      if success && !valid { Latch(BadFrame); }
      if valid {
        broker := broker.(response := p);
        if r.stream { broker := broker.(streamTotal := p.total); }
      }
      broker := broker.(streamMore := more, terminal := true, terminalOk := valid, completing := false);
    }

    method ScheduleSection() returns (taken: bool)
      modifies this
      ensures taken == ScheduleTaken(old(broker))
      ensures broker == if taken then Schedule(old(broker)) else old(broker)
    {
      if !broker.pending || broker.submitting || broker.completing || !broker.terminal || broker.delivering
        || broker.queued {
        return false;
      }
      broker := broker.(queued := true, actors := broker.actors + 1);
      return true;
    }

    method NotQueuedSection()
      modifies this
      ensures broker == ScheduleFailed(old(broker))
    {
      Latch(NotQueued);
      broker := broker.(queued := false, pending := false, terminal := false, terminalOk := false,
                        response := NO_RESPONSE, request := NO_REQUEST);
    }

    method HandlerSection() returns (taken: bool)
      modifies this
      ensures broker == Handler(old(broker)) && taken == HandlerTaken(old(broker))
    {
      hide Broker.Handler, Broker.Fault;
      HandlerIs(broker);
      if !broker.queued { return false; }
      broker := broker.(queued := false);
      if !broker.pending || broker.submitting || broker.completing || !broker.terminal || broker.delivering {
        Latch(BadDelivery);
        return false;
      }
      broker := broker.(actors := broker.actors + 1);
      return true;
    }

    method DeliverStartSection() returns (begun: bool, epoch: nat, conn: nat, frame: Response, ok: bool)
      modifies this
      ensures broker == DeliverStart(old(broker)) && begun == Deliverable(old(broker))
      ensures begun ==> var was := old(broker);
        epoch == was.epoch && conn == was.conn && frame == was.response && ok == was.terminalOk
    {
      if !broker.pending || broker.submitting || broker.completing || !broker.terminal || broker.delivering {
        return false, 0, 0, NO_RESPONSE, false;
      }
      broker := broker.(delivering := true);
      return true, broker.epoch, broker.conn, broker.response, broker.terminalOk;
    }

    method DeliverEndSection(epoch: nat, p: Response, ok: bool, retry: bool)
      modifies this
      ensures broker == DeliverEnd(old(broker), epoch, p, ok, retry)
    {
      hide Broker.DeliverEnd;
      DeliverEndIs(broker, epoch, p, ok, retry);
      if broker.active && broker.epoch == epoch && broker.delivering {
        if retry {
          broker := broker.(delivering := false);
          return;
        }
        if broker.streamMore {
          var sent := if ok then broker.streamSent + p.len else broker.streamSent;
          broker := broker.(revoked := broker.revoked || !ok, streamSent := sent, terminal := false,
                            terminalOk := false, delivering := false, streamMore := false, response := NO_RESPONSE);
          return;
        }
        broker := broker.(revoked := broker.revoked || !ok, pending := false, terminal := false, terminalOk := false,
                          delivering := false, response := NO_RESPONSE, request := NO_REQUEST);
      }
    }

    method DisconnectedSection(conn: nat)
      modifies this
      ensures broker == Disconnected(old(broker), conn)
    {
      if broker.active && broker.conn == conn { broker := broker.(revoked := true); }
    }

    /** 0: a frame is staged already; 1: ready for one; -1: no longer wanted. */
    method StreamReadySection(epoch: nat, sequence: nat, t: int) returns (answer: int)
      modifies this
      ensures broker == Tick(old(broker), t)
      ensures answer == 0 <==> StreamStaged(broker, epoch, sequence, t)
      ensures answer == 1 ==>
        && broker.pending && broker.request.stream && !broker.revoked && !broker.fault
        && t < broker.deadline
    {
      var valid := ClockAndExpire(t);
      valid := valid && broker.active && broker.pending && broker.epoch == epoch && broker.request.sequence == sequence
               && broker.request.stream;
      var staged := valid && (broker.terminal || broker.completing || broker.delivering);
      answer := if staged then 0 else if valid && !broker.fault && !broker.revoked && t < broker.deadline then 1
        else -1;
    }

    method RetiredSection(epoch: nat, ok: bool) returns (taken: bool)
      modifies this
      ensures broker == Retired(old(broker), epoch, ok) && taken == RetireTaken(old(broker), epoch)
    {
      hide Broker.Retired, Broker.Clear;
      RetiredIs(broker, epoch, ok);
      taken := broker.active && broker.epoch == epoch && broker.retireQueued && !broker.pending && broker.actors == 0;
      if !taken { return; }
      if !ok {
        broker := broker.(fault := true, causes := broker.causes.When(true, RetireResult));
        return;
      }
      var dropped := ClearLocked();
    }

    method PollSection(ready: bool, t: int) returns (stream: bool)
      modifies this
      ensures broker == Polled(old(broker), ready, t) && stream == old(broker).request.stream
    {
      hide Broker.Tick, Broker.Polled;
      PolledIs(broker, ready, t);
      stream := broker.request.stream;
      if !broker.initialized { return; }
      var ok := ClockAndExpire(t);
      if broker.active && !ready {
        broker := broker.(revoked := true);
        return;
      }
    }
  }
}
