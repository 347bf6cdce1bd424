/**
 A run with honest hooks and no failure at all in which the handler's bad-delivery fault is latched.
 Thread 0 is the work queue, thread 1 the Bluetooth thread, thread 2 the storage worker.
 */
module BrokerWitness {
  import opened Broker
  import opened BrokerRuns
  import opened BrokerSafety
  import opened BrokerDelivery

  const CATALOG := Request(true, false, false, 1, 1, 0, 1)
  const FRAME := Response(0, 128, 1, true)

  /** A live session with the request pending; `terminal` tells whether its response is staged. */
  predicate Asked(s: State, actors: nat, submitting: bool, terminal: bool, delivering: bool, queued: bool) {
    && s.initialized && !s.fault && s.active && s.epoch == 1 && s.conn == 1 && !s.revoked
    && s.actors == actors && s.delivering == delivering && s.queued == queued
    && s.pending && s.submitting == submitting && !s.completing && s.terminal == terminal
    && s.lastNow == 0 && s.expires == SESSION_MS && s.deadline == REQUEST_MS && s.request == CATALOG
    && !s.streamMore && s.causes == Causes(false, false, false) && (terminal ==> s.terminalOk)
  }

  predicate Places(w: World, queue: Pc, bluetooth: Pc, worker: Pc) {
    w.threads == [queue, bluetooth, worker]
  }

  lemma Opening(w: World) returns (v: World)
    requires Boots(w) && |w.threads| == 3
    ensures v == Step(Step(Step(w, 1, Init), 1, Command(1, CATALOG)), 1, Go(0, true, Accepted))
    ensures Gated(v)
  {
    var a := Step(w, 1, Init);
    var b := Step(a, 1, Command(1, CATALOG));
    assert b.s == Broker.Init(w.s);
    v := Step(b, 1, Go(0, true, Accepted));
  }

  predicate Gated(v: World) {
    && v.s.initialized && !v.s.fault && v.s.active && v.s.epoch == 1 && v.s.conn == 1 && !v.s.revoked && !v.s.pending
    && v.s.lastNow == 0 && v.s.expires == SESSION_MS && v.s.deadline == REQUEST_MS
      && v.s.causes == Causes(false, false, false)
    && v.s.actors == 1 && !v.s.terminal && !v.s.completing && !v.s.submitting && !v.s.delivering && !v.s.queued
      && !v.work
    && Places(v, Idle, CmdGate(1, 1, CATALOG, 1, REQUEST_MS, false), Idle)
  }

  const GO := Go(0, true, Accepted)

  lemma Committing(w: World) returns (v: World)
    requires Gated(w)
    ensures v == Step(Step(Step(w, 1, GO), 1, GO), 1, GO)
    ensures Asked(v.s, 1, true, false, false, false) && !v.work && Places(v, Idle, CmdSubmitted(false), Idle)
  {
    var a := Step(w, 1, GO);
    assert a.threads[1] == CmdGate(0, 1, CATALOG, 1, REQUEST_MS, false);
    var b := Step(a, 1, GO);
    assert b.threads[1] == CmdCommit(CATALOG, 1, REQUEST_MS, false, true);
    v := Step(b, 1, GO);
  }

  const DONE := Complete(1, 1, FRAME, true, false)

  /** The worker finishes while submit has not returned. */
  lemma Finishing(w: World) returns (v: World)
    requires Asked(w.s, 1, true, false, false, false) && !w.work && Places(w, Idle, CmdSubmitted(false), Idle)
    ensures v == Step(Step(Step(w, 2, DONE), 2, GO), 2, GO)
    ensures Asked(v.s, 2, true, true, false, false) && !v.work
      && Places(v, Idle, CmdSubmitted(false), Scheduling(ThenLeave))
  {
    var a := Step(w, 2, DONE);
    assert a.threads[2] == CompleteChecking(CATALOG, FRAME, true, false);
    var b := Step(a, 2, GO);
    assert b.threads[2] == CompleteEnding(CATALOG, FRAME, true, true, false);
    v := Step(b, 2, GO);
  }

  /** Submit returns; the worker queues the item. */
  lemma Queueing(w: World) returns (v: World)
    requires Asked(w.s, 2, true, true, false, false) && !w.work
      && Places(w, Idle, CmdSubmitted(false), Scheduling(ThenLeave))
    ensures v == Step(Step(Step(w, 1, GO), 2, GO), 2, GO)
    ensures Asked(v.s, 3, false, true, false, true) && v.work
    ensures Places(v, Idle, Scheduling(ThenDone(false)), Leaving(ThenLeave))
  {
    var a := Step(w, 1, GO);
    var b := Step(a, 2, GO);
    v := Step(b, 2, GO);
  }

  /** The handler takes the item off, and before it starts the Bluetooth thread queues it again. */
  lemma Overlapping(w: World) returns (v: World)
    requires Asked(w.s, 3, false, true, false, true) && w.work
    requires Places(w, Idle, Scheduling(ThenDone(false)), Leaving(ThenLeave))
    ensures v == Step(Step(Step(w, 0, RunWork), 1, GO), 1, GO)
    ensures Asked(v.s, 5, false, true, false, true) && v.work
    ensures Places(v, Delivering, Leaving(ThenDone(false)), Leaving(ThenLeave))
  {
    var a := Step(w, 0, RunWork);
    assert a.threads[0] == Delivering;
    var b := Step(a, 1, GO);
    v := Step(b, 1, GO);
  }

  lemma Starting(w: World) returns (v: World)
    requires Asked(w.s, 5, false, true, false, true) && w.work
    requires Places(w, Delivering, Leaving(ThenDone(false)), Leaving(ThenLeave))
    ensures v == Step(Step(w, 0, GO), 0, GO)
    ensures Asked(v.s, 5, false, true, true, true) && v.work && v.s.response == w.s.response
    ensures Places(v, DeliverCheck(1, 1, 1, v.s.response, true), Leaving(ThenDone(false)), Leaving(ThenLeave))
  {
    var a := Step(w, 0, GO);
    assert a.threads[0] == DeliverCheck(2, 1, 1, w.s.response, true);
    v := Step(a, 0, GO);
  }

  lemma Checking(w: World) returns (v: World)
    requires Asked(w.s, 5, false, true, true, true) && w.work
    requires Places(w, DeliverCheck(1, 1, 1, w.s.response, true), Leaving(ThenDone(false)), Leaving(ThenLeave))
    ensures v == Step(Step(w, 0, GO), 0, GO)
    ensures Asked(v.s, 5, false, true, true, true) && v.work
    ensures Places(v, DeliverNotify(1, 1, w.s.response, true), Leaving(ThenDone(false)), Leaving(ThenLeave))
  {
    var a := Step(w, 0, GO);
    assert a.threads[0] == DeliverCheck(0, 1, 1, w.s.response, true);
    v := Step(a, 0, GO);
  }

  lemma Ending(w: World) returns (v: World)
    requires Asked(w.s, 5, false, true, true, true) && w.work && |w.threads| == 3 && w.threads[0].DeliverNotify?
    requires Places(w, DeliverNotify(1, 1, w.threads[0].p, true), Leaving(ThenDone(false)), Leaving(ThenLeave))
    ensures v == Step(Step(Step(w, 0, GO), 0, GO), 0, GO)
    ensures v.s.queued && !v.s.pending && !v.s.revoked && v.s.actors == 5 && v.s.causes == Causes(false, false, false)
      && v.work
    ensures Places(v, Leaving(End), Leaving(ThenDone(false)), Leaving(ThenLeave))
  {
    var a := Step(w, 0, GO);
    var b := Step(a, 0, GO);
    assert b.threads[0] == DeliverEnding(1, w.threads[0].p, true, true, false);
    v := Step(b, 0, GO);
  }

  lemma Faulting(w: World) returns (v: World)
    requires w.s.queued && !w.s.pending && !w.s.revoked && w.s.actors == 5 && w.s.causes == Causes(false, false, false)
      && w.work
    requires Places(w, Leaving(End), Leaving(ThenDone(false)), Leaving(ThenLeave))
    ensures v == Step(Step(Step(w, 0, GO), 0, GO), 0, RunWork) && v.s.causes == Causes(false, true, false) && v.s.fault
  {
    var a := Step(w, 0, GO);
    var b := Step(a, 0, GO);
    assert b.threads[0] == Idle;
    v := Step(b, 0, RunWork);
  }

  lemma RunOne(w: World, run: seq<Event>, i: nat, a: Action)
    requires i < |w.threads|
    ensures Run(w, run + [Event(i, a)]) == Step(Run(w, run), i, a)
  {
    assert (run + [Event(i, a)])[..|run|] == run;
  }

  lemma RunThree(w: World, run: seq<Event>, x: Event, y: Event, z: Event)
    requires x.thread < |w.threads| && y.thread < |w.threads| && z.thread < |w.threads|
    ensures Run(w, run + [x, y, z]) ==
      Step(Step(Step(Run(w, run), x.thread, x.action), y.thread, y.action), z.thread, z.action)
  {
    hide Step;
    RunOne(w, run, x.thread, x.action);
    RunOne(w, run + [x], y.thread, y.action);
    RunOne(w, run + [x] + [y], z.thread, z.action);
    assert run + [x] + [y] + [z] == run + [x, y, z];
  }

  predicate AboutToOverlap(v: World) {
    && Asked(v.s, 3, false, true, false, true) && v.work
    && Places(v, Idle, Scheduling(ThenDone(false)), Leaving(ThenLeave))
  }

  /** Up to the moment both threads are about to schedule the delivery. */
  lemma FirstHalf(w: World) returns (run: seq<Event>)
    requires Boots(w) && |w.threads| == 3
    ensures AboutToOverlap(Run(w, run))
  {
    hide Step, Boots, Asked, Gated;
    var a := Opening(w);
    RunThree(w, [], Event(1, Init), Event(1, Command(1, CATALOG)), Event(1, GO));
    run := [] + [Event(1, Init), Event(1, Command(1, CATALOG)), Event(1, GO)];
    var b := Committing(a);
    RunThree(w, run, Event(1, GO), Event(1, GO), Event(1, GO));
    run := run + [Event(1, GO), Event(1, GO), Event(1, GO)];
    var c := Finishing(b);
    RunThree(w, run, Event(2, DONE), Event(2, GO), Event(2, GO));
    run := run + [Event(2, DONE), Event(2, GO), Event(2, GO)];
    var d := Queueing(c);
    RunThree(w, run, Event(1, GO), Event(2, GO), Event(2, GO));
    run := run + [Event(1, GO), Event(2, GO), Event(2, GO)];
  }

  lemma SecondHalf(w: World, before: seq<Event>) returns (run: seq<Event>)
    requires |w.threads| == 3
    requires AboutToOverlap(Run(w, before))
    ensures Run(w, run).s.causes == Causes(false, true, false)
  {
    hide Step, Asked;
    var e := Overlapping(Run(w, before));
    RunThree(w, before, Event(0, RunWork), Event(1, GO), Event(1, GO));
    run := before + [Event(0, RunWork), Event(1, GO), Event(1, GO)];
    var e2 := Starting(e);
    var f := Checking(e2);
    RunThree(w, run, Event(0, GO), Event(0, GO), Event(0, GO));
    run := run + [Event(0, GO), Event(0, GO), Event(0, GO)];
    RunOne(w, run, 0, GO);
    run := run + [Event(0, GO)];
    var g := Ending(f);
    RunThree(w, run, Event(0, GO), Event(0, GO), Event(0, GO));
    run := run + [Event(0, GO), Event(0, GO), Event(0, GO)];
    var h := Faulting(g);
    RunThree(w, run, Event(0, GO), Event(0, GO), Event(0, RunWork));
    run := run + [Event(0, GO), Event(0, GO), Event(0, RunWork)];
  }

  /** Honest hooks, an honest clock, nothing fails, and still the handler latches its own fault. */
  lemma {:induction false} BadDeliveryHappens(w: World) returns (run: seq<Event>)
    requires Boots(w) && |w.threads| == 3
    ensures Run(w, run).s.causes == Causes(false, true, false) && !Cooperative(w, run)
  {
    var before := FirstHalf(w);
    run := SecondHalf(w, before);
    if Cooperative(w, run) { NoBadDelivery(w, run); }
  }
}
