/**
 The Bluetooth recording broker: one shared record changed inside IRQ-locked sections by the
 Bluetooth thread, the storage worker, the system work queue and the poller. This module gives
 every locked section as a function on the record; `BrokerRuns` interleaves them.
 */
module Broker {
  const SESSION_MS: nat := 900000
  const REQUEST_MS: nat := 30000
  const FULL_OPEN_MS: nat := 300000
  const EPOCH_MAX: nat := 0xFFFF_FFFF
  const TIME_MAX: nat := 0xFFFF_FFFF_FFFF_FFFF
  const MAX_DATA: nat := 192

  /** A request as far as the broker looks at it. `stream` is the FULL_STREAM command. */
  datatype Request = Request(catalog: bool, full: bool, stream: bool,
                             sequence: nat, nonce: nat, offset: nat, maximum: nat)

  /** A response frame: the echoed offset, the object's total size and the data bytes it carries.
      `echoes` says every other byte is what the codec would build for the request. */
  datatype Response = Response(offset: nat, total: nat, len: nat, echoes: bool)

  const NO_REQUEST := Request(false, false, false, 0, 0, 0, 0)
  const NO_RESPONSE := Response(0, 0, 0, false)

  /** Why the fault latch was set. */
  datatype Cause = ClockBackwards | Underflow | BadDelivery | NotQueued | BadFrame
                 | ContradictorySubmit | RetireHook | RetireResult

  /** Every cause met so far. The two that no run should meet are kept apart from the rest. */
  datatype Causes = Causes(underflow: bool, badDelivery: bool, external: bool) {
    function When(on: bool, c: Cause): Causes {
      Causes(underflow || (on && c.Underflow?), badDelivery || (on && c.BadDelivery?),
             external || (on && !c.Underflow? && !c.BadDelivery?))
    }
  }

  datatype State = State(
    initialized: bool, fault: bool, active: bool, conn: nat, revoked: bool,
    pending: bool, submitting: bool, completing: bool, terminal: bool, terminalOk: bool,
    delivering: bool, queued: bool, retireQueued: bool, actors: nat, everSubmitted: bool,
    epoch: nat, lastEpoch: nat, priorValid: bool, priorNonce: nat, nonce: nat, fullProfile: bool,
    streamSent: nat, streamTotal: nat, streamMore: bool,
    lastSequence: nat, lastNow: nat, expires: nat, deadline: nat,
    request: Request, response: Response,
    // history: why the latch was set, the session's last committed request and what was enqueued for it
    causes: Causes, committed: bool, asked: Request, sent: seq<Response>)

  function Fault(s: State, c: Cause): State {
    s.(fault := true, revoked := true, causes := s.causes.When(true, c))
  }

  predicate ClockOk(s: State, t: int) { t >= s.lastNow }

  /** `clock_locked`: a reading that runs backwards latches the fault. */
  function Clock(s: State, t: int): State {
    var ok := ClockOk(s, t);
    s.(lastNow := if ok then t else s.lastNow, fault := s.fault || !ok, revoked := s.revoked || !ok,
       causes := s.causes.When(!ok, ClockBackwards))
  }

  /** `clock_locked` and, when the reading was good, `expire_locked`; nothing at all unless `on`. */
  function TickIf(on: bool, s: State, t: int): State {
    var good := on && ClockOk(s, t);
    var bad := on && !ClockOk(s, t);
    s.(lastNow := if good then t else s.lastNow, fault := s.fault || bad,
       revoked := s.revoked || bad || (good && s.active && t >= s.expires),
       causes := s.causes.When(bad, ClockBackwards))
  }

  function Tick(s: State, t: int): State { TickIf(true, s, t) }

  /** The liveness test every hook answer is paired with. */
  predicate Live(s: State, t: int, epoch: nat, conn: nat) {
    var u := Tick(s, t);
    ClockOk(s, t) && !u.fault && u.active && u.epoch == epoch && u.conn == conn && !u.revoked && t < u.deadline
  }

  /** Broker state only; epochs and the prior nonce survive. */
  function Clear(s: State): State {
    s.(priorNonce := s.nonce, priorValid := true, conn := 0,
       active := false, revoked := false, pending := false, submitting := false, completing := false,
       terminal := false, terminalOk := false, delivering := false, queued := false,
       retireQueued := false, everSubmitted := false,
       lastSequence := 0, expires := 0, deadline := 0, response := NO_RESPONSE, request := NO_REQUEST,
       streamSent := 0, streamTotal := 0, streamMore := false, nonce := 0,
       committed := false, asked := NO_REQUEST, sent := [])
  }

  predicate Deliverable(s: State) {
    s.pending && !s.submitting && !s.completing && s.terminal && !s.delivering
  }

  // ----- kick / leave --------------------------------------------------------------------------------

  predicate KickReady(s: State) {
    s.active && s.revoked && !s.pending && s.actors == 0 && !s.retireQueued
  }

  function Kick(s: State): State {
    var ready := KickReady(s);
    if ready && !s.everSubmitted then Clear(s) else s.(retireQueued := s.retireQueued || ready)
  }

  function RetireHookFailed(s: State, epoch: nat): State {
    s.(fault := true, causes := s.causes.When(true, RetireHook), revoked := s.revoked || (s.active && s.epoch == epoch))
  }

  function Leave(s: State): State {
    var empty := s.actors == 0;
    s.(actors := if empty then 0 else s.actors - 1, fault := s.fault || empty, revoked := s.revoked || empty,
       causes := s.causes.When(empty, Underflow))
  }

  // ----- command -------------------------------------------------------------------------------------

  datatype Verdict = Refused | Busy | Joined | Opened

  function OpenVerdict(s: State, conn: nat, r: Request, t: int): Verdict {
    if !s.initialized || s.fault || !ClockOk(s, t) then Refused
    else if s.active && (s.revoked || t >= s.expires || s.pending || s.actors > 0 || s.retireQueued) then Busy
    else if !s.active then
      if !r.catalog || r.offset != 0 || s.lastEpoch >= EPOCH_MAX || (s.priorValid && r.nonce == s.priorNonce)
         || t > TIME_MAX - SESSION_MS then Refused
      else Opened
    else if s.conn != conn || s.nonce != r.nonce || r.sequence <= s.lastSequence || s.fullProfile != r.full then Refused
    else Joined
  }

  function OpenState(s: State, conn: nat, r: Request, t: int): State {
    var v := OpenVerdict(s, conn, r, t);
    var u := TickIf(s.initialized && !s.fault, s, t);
    var opens := v.Opened?;
    var enters := opens || v.Joined?;
    var expires := if opens then t + SESSION_MS else u.expires;
    var full := if opens then r.full else u.fullProfile;
    var budget := if full && !u.everSubmitted then FULL_OPEN_MS else REQUEST_MS;
    u.(active := u.active || opens, conn := if opens then conn else u.conn,
       epoch := if opens then u.lastEpoch + 1 else u.epoch, lastEpoch := if opens then u.lastEpoch + 1 else u.lastEpoch,
       fullProfile := full, expires := expires, nonce := if opens then r.nonce else u.nonce,
       actors := if enters then u.actors + 1 else u.actors,
       deadline := if !enters then u.deadline else if expires - t > budget then t + budget else expires)
  }

  predicate CommitOk(s: State, epoch: nat, deadline: nat, permitted: bool, t: int) {
    permitted && ClockOk(s, t) && !s.fault && s.active && s.epoch == epoch && !s.revoked && t < deadline
  }

  function Commit(s: State, r: Request, epoch: nat, deadline: nat, permitted: bool, t: int): State {
    var ok := CommitOk(s, epoch, deadline, permitted, t);
    var bad := permitted && !ClockOk(s, t);
    s.(lastNow := if permitted && !bad then t else s.lastNow, fault := s.fault || bad,
       causes := s.causes.When(bad, ClockBackwards), revoked := s.revoked || !ok,
       request := if ok then r else s.request, pending := s.pending || ok, submitting := s.submitting || ok,
       lastSequence := if ok then r.sequence else s.lastSequence,
       streamSent := if ok then 0 else s.streamSent, streamTotal := if ok then 0 else s.streamTotal,
       streamMore := s.streamMore && !ok,
       committed := s.committed || ok, asked := if ok then r else s.asked, sent := if ok then [] else s.sent)
  }

  function Submitted(s: State, accepted: bool): State {
    var contradicted := !accepted && (s.terminal || s.completing);
    s.(submitting := false, everSubmitted := s.everSubmitted || accepted || contradicted,
       fault := s.fault || contradicted, revoked := s.revoked || !accepted,
       causes := s.causes.When(contradicted, ContradictorySubmit),
       pending := s.pending && accepted, terminal := s.terminal && accepted,
       terminalOk := s.terminalOk && accepted, response := if accepted then s.response else NO_RESPONSE)
  }

  // ----- completion ----------------------------------------------------------------------------------

  function Min(a: nat, b: nat): nat { if a < b then a else b }

  /** What is left to send, within the request, from the given offset. */
  function Remaining(r: Request, total: nat, sent: nat): nat
    requires r.offset + sent <= total && sent <= r.maximum
  {
    Min(total - (r.offset + sent), r.maximum - sent)
  }

  /** The codec's answer for the fragment at `sent`: exactly the bytes left, at most one frame. */
  predicate StreamFrameOk(r: Request, sent: nat, p: Response) {
    && p.echoes && sent < r.maximum
    && p.offset == r.offset + sent && p.offset < p.total
    && p.len == Min(Remaining(r, p.total, sent), MAX_DATA)
  }

  /** The verdict on a frame for request `r`, of which `sent` bytes of `total` (0: not known yet) went out. */
  predicate FrameOk(r: Request, sent: nat, total: nat, p: Response, more: bool) {
    if r.stream then
      && StreamFrameOk(r, sent, p)
      && (total == 0 || total == p.total)
      && (p.len < Remaining(r, p.total, sent) <==> more)
    else p.echoes && !more
  }

  predicate CompleteTaken(s: State, epoch: nat, sequence: nat) {
    s.initialized && s.active && s.epoch == epoch && s.pending && !s.completing && !s.terminal
    && s.request.sequence == sequence
  }

  function CompleteBegin(s: State): State {
    s.(completing := true, actors := s.actors + 1)
  }

  /** `valid` is the verdict on the frame reached between the two sections. */
  function CompleteEnd(s: State, r: Request, p: Response, success: bool, valid: bool, more: bool): State {
    var bad := success && !valid;
    s.(fault := s.fault || bad, revoked := s.revoked || bad,
       causes := s.causes.When(bad, BadFrame),
       response := if valid then p else s.response,
       streamTotal := if valid && r.stream then p.total else s.streamTotal,
       streamMore := more, terminal := true, terminalOk := valid, completing := false)
  }

  // ----- delivery ------------------------------------------------------------------------------------

  predicate ScheduleTaken(s: State) { Deliverable(s) && !s.queued }

  function Schedule(s: State): State {
    s.(queued := true, actors := s.actors + 1)
  }

  function ScheduleFailed(s: State): State {
    Fault(s, NotQueued).(queued := false, pending := false, terminal := false, terminalOk := false,
                         response := NO_RESPONSE, request := NO_REQUEST)
  }

  /** The work item runs: false means it returned without delivering. */
  predicate HandlerTaken(s: State) { s.queued && Deliverable(s) }

  function Handler(s: State): State {
    var taken := HandlerTaken(s);
    var bad := s.queued && !taken;
    s.(queued := false, actors := if taken then s.actors + 1 else s.actors,
       fault := s.fault || bad, revoked := s.revoked || bad,
       causes := s.causes.When(bad, BadDelivery))
  }

  function DeliverStart(s: State): State {
    s.(delivering := s.delivering || Deliverable(s))
  }

  /** The frame was given to the Bluetooth stack, which took it or not. */
  function Notified(s: State, p: Response, accepted: bool): State {
    if accepted then s.(sent := s.sent + [p]) else s
  }

  /** The last section of a delivery. `ok`: the frame was enqueued and the session was still live
      afterwards; `retry`: a stream frame met full buffers. */
  function DeliverEnd(s: State, epoch: nat, p: Response, ok: bool, retry: bool): State {
    var mine := s.active && s.epoch == epoch && s.delivering;
    var ends := mine && !retry;
    var whole := ends && !s.streamMore;
    s.(delivering := s.delivering && !mine, revoked := s.revoked || (ends && !ok),
       streamSent := if ends && s.streamMore && ok then s.streamSent + p.len else s.streamSent,
       streamMore := s.streamMore && !ends, pending := s.pending && !whole,
       terminal := s.terminal && !ends, terminalOk := s.terminalOk && !ends,
       response := if ends then NO_RESPONSE else s.response,
       request := if whole then NO_REQUEST else s.request)
  }

  // ----- the rest ------------------------------------------------------------------------------------

  function Disconnected(s: State, conn: nat): State {
    s.(revoked := s.revoked || (s.active && s.conn == conn))
  }

  predicate StreamStaged(s: State, epoch: nat, sequence: nat, t: int) {
    ClockOk(s, t) && s.active && s.pending && s.epoch == epoch && s.request.sequence == sequence && s.request.stream
    && (s.terminal || s.completing || s.delivering)
  }

  predicate RetireTaken(s: State, epoch: nat) {
    s.active && s.epoch == epoch && s.retireQueued && !s.pending && s.actors == 0
  }

  function Retired(s: State, epoch: nat, ok: bool): State {
    var taken := RetireTaken(s, epoch);
    if taken && ok then Clear(s)
    else s.(fault := s.fault || taken, causes := s.causes.When(taken, RetireResult))
  }

  function Polled(s: State, ready: bool, t: int): State {
    var u := TickIf(s.initialized, s, t);
    u.(revoked := u.revoked || (u.active && s.initialized && !ready))
  }

  /** The one-time installation of the hooks. */
  function Init(s: State): State { s.(initialized := true) }
}
