/**
 The overlap is the whole difference. Where a run takes a schedule while a handler stands between
 taking the item off and starting, it can always be continued, with honest clocks and hooks and one
 handler after the other, until the handler latches its bad-delivery fault.
 */
module BrokerOverlap {
  import opened Broker
  import opened BrokerRuns
  import opened BrokerSafety
  import opened BrokerDelivery
  import opened BrokerWitness

  /** Thread `i` is delivering, thread `u` is about to put the item on again. */
  predicate Over(v: World, i: nat, u: nat, at: Pc, k: Cont, causes: Causes) {
    && i < |v.threads| && u < |v.threads| && i != u && v.threads[i] == at && v.threads[u] == Enqueueing(k)
    && v.s.queued && v.s.active && v.s.actors >= 2 && v.s.causes == causes
  }

  function Later(s: State): nat { if s.deadline > s.lastNow then s.deadline else s.lastNow }

  lemma StartDelivery(v: World, i: nat, u: nat, k: Cont, x: World)
    requires Over(v, i, u, Delivering, k, v.s.causes) && Deliverable(v.s) && x == Step(v, i, GO)
    ensures Over(x, i, u, DeliverCheck(2, x.s.epoch, x.s.conn, x.s.response, x.s.terminalOk), k, v.s.causes)
      && x.s.delivering
    ensures x.s.deadline == v.s.deadline && x.s.lastNow == v.s.lastNow
  {
  }

  /** The deadline passes before the first look. */
  lemma LookLate(v: World, i: nat, u: nat, k: Cont, x: World)
    requires Over(v, i, u, DeliverCheck(2, v.s.epoch, v.s.conn, v.s.response, v.s.terminalOk), k, v.s.causes)
      && v.s.delivering
    requires x == Step(v, i, Go(Later(v.s), true, Accepted))
    ensures Over(x, i, u, DeliverNotify(x.s.epoch, x.s.conn, x.s.response, false), k, v.s.causes) && x.s.delivering
  {
  }

  lemma SkipNotify(v: World, i: nat, u: nat, k: Cont, x: World)
    requires Over(v, i, u, DeliverNotify(v.s.epoch, v.s.conn, v.s.response, false), k, v.s.causes) && v.s.delivering
    requires x == Step(v, i, GO)
    ensures Over(x, i, u, DeliverAfter(x.s.epoch, x.s.conn, x.s.response, false, false), k, v.s.causes)
      && x.s.delivering
  {
  }

  lemma SkipAfter(v: World, i: nat, u: nat, k: Cont, x: World)
    requires Over(v, i, u, DeliverAfter(v.s.epoch, v.s.conn, v.s.response, false, false), k, v.s.causes)
      && v.s.delivering
    requires x == Step(v, i, GO)
    ensures Over(x, i, u, DeliverEnding(x.s.epoch, x.s.response, false, false, false), k, v.s.causes) && x.s.delivering
  {
  }

  lemma EndDelivery(v: World, i: nat, u: nat, k: Cont, x: World)
    requires Over(v, i, u, DeliverEnding(v.s.epoch, v.s.response, false, false, false), k, v.s.causes) && v.s.delivering
    requires x == Step(v, i, GO)
    ensures Over(x, i, u, Leaving(End), k, v.s.causes) && !x.s.terminal
  {
  }

  lemma GoHome(v: World, i: nat, u: nat, k: Cont, x: World)
    requires Over(v, i, u, Leaving(End), k, v.s.causes) && !v.s.terminal && x == Step(Step(v, i, GO), i, GO)
    ensures i < |x.threads| && u < |x.threads| && x.threads[i] == Idle && x.threads[u] == Enqueueing(k) && i != u
    ensures x.s.queued && !x.s.terminal && x.s.causes == v.s.causes
  {
    var a := Step(v, i, GO);
    assert a.s.actors >= 1 && a.threads[i] == Kicking(End) && a.threads[u] == Enqueueing(k);
  }

  lemma PutOn(v: World, i: nat, u: nat, k: Cont, x: World)
    requires i < |v.threads| && u < |v.threads| && i != u && v.threads[i] == Idle && v.threads[u] == Enqueueing(k)
    requires v.s.queued && !v.s.terminal && x == Step(Step(v, u, GO), i, RunWork)
    ensures x.s.causes == v.s.causes.(badDelivery := true)
  {
    var a := Step(v, u, GO);
    assert a.work && a.threads[i] == Idle && a.s == v.s;
  }

  /** The delivery is made after its deadline; then the item is put on again and the handler runs. */
  function Deliver(i: nat, late: nat): seq<Event> {
    [Event(i, GO), Event(i, Go(late, true, Accepted))] + [Event(i, GO), Event(i, GO), Event(i, GO)]
  }

  function Again(i: nat, u: nat): seq<Event> { [Event(i, GO), Event(i, GO)] + [Event(u, GO), Event(i, RunWork)] }

  lemma RunTwo(w: World, run: seq<Event>, x: Event, y: Event)
    requires x.thread < |w.threads| && y.thread < |w.threads|
    ensures Run(w, run + [x, y]) == Step(Step(Run(w, run), x.thread, x.action), y.thread, y.action)
  {
    hide Step;
    RunOne(w, run, x.thread, x.action);
    RunOne(w, run + [x], y.thread, y.action);
    assert run + [x] + [y] == run + [x, y];
  }

  lemma FirstTwo(v: World, i: nat, u: nat, k: Cont) returns (b: World)
    requires Over(v, i, u, Delivering, k, v.s.causes) && Deliverable(v.s)
    ensures Bound(v, i, u) && b == Step(Step(v, i, GO), i, Go(Later(v.s), true, Accepted))
    ensures Calm(v, i) && Calm(Step(v, i, GO), i)
    ensures Over(b, i, u, DeliverNotify(b.s.epoch, b.s.conn, b.s.response, false), k, v.s.causes) && b.s.delivering
  {
    hide Step, Deliverable;
    var a := Step(v, i, GO);
    StartDelivery(v, i, u, k, a);
    b := Step(a, i, Go(Later(v.s), true, Accepted));
    LookLate(a, i, u, k, b);
  }

  lemma NextThree(b: World, i: nat, u: nat, k: Cont) returns (x: World)
    requires Over(b, i, u, DeliverNotify(b.s.epoch, b.s.conn, b.s.response, false), k, b.s.causes) && b.s.delivering
    ensures Bound(b, i, u) && x == Step(Step(Step(b, i, GO), i, GO), i, GO)
    ensures Calm(b, i) && Calm(Step(b, i, GO), i) && Calm(Step(Step(b, i, GO), i, GO), i)
    ensures Over(x, i, u, Leaving(End), k, b.s.causes) && !x.s.terminal
  {
    hide Step;
    var c := Step(b, i, GO);
    SkipNotify(b, i, u, k, c);
    var d := Step(c, i, GO);
    SkipAfter(c, i, u, k, d);
    x := Step(d, i, GO);
    EndDelivery(d, i, u, k, x);
  }

  /** Thread `i` is not about to schedule. */
  predicate Calm(v: World, i: nat) { i < |v.threads| && !v.threads[i].Scheduling? }

  predicate Bound(v: World, i: nat, u: nat) { i < |v.threads| && u < |v.threads| }

  lemma OverBound(v: World, i: nat, u: nat, at: Pc, k: Cont, causes: Causes)
    requires Over(v, i, u, at, k, causes)
    ensures Bound(v, i, u) && v.s.causes == causes
  {
  }

  /** Continuing `run` with `rest` takes no further schedule. */
  predicate Quiet(w: World, run: seq<Event>, rest: seq<Event>) {
    if rest == [] then true
    else
      var front, e := rest[..|rest| - 1], rest[|rest| - 1];
      Quiet(w, run, front) && (e.thread < |w.threads| ==> Calm(Run(w, run + front), e.thread))
  }

  lemma QuietOne(w: World, run: seq<Event>, rest: seq<Event>, x: Event)
    requires Quiet(w, run, rest) && x.thread < |w.threads| && Calm(Run(w, run + rest), x.thread)
    ensures Quiet(w, run, rest + [x])
  {
    assert (rest + [x])[..|rest|] == rest;
  }

  lemma QuietTwo(w: World, run: seq<Event>, rest: seq<Event>, v: World, x: Event, y: Event)
    requires Quiet(w, run, rest) && v == Run(w, run + rest) && x.thread < |w.threads| && y.thread < |w.threads|
    requires Calm(v, x.thread) && Calm(Step(v, x.thread, x.action), y.thread)
    ensures Quiet(w, run, rest + [x, y])
  {
    hide Step, Run, Quiet;
    QuietOne(w, run, rest, x);
    RunOne(w, run + rest, x.thread, x.action);
    assert run + rest + [x] == run + (rest + [x]);
    QuietOne(w, run, rest + [x], y);
    assert rest + [x] + [y] == rest + [x, y];
  }

  lemma {:induction false} QuietCooperates(w: World, run: seq<Event>, rest: seq<Event>)
    requires Cooperative(w, run) && Quiet(w, run, rest)
    ensures Cooperative(w, run + rest)
  {
    hide Step, Run, Broker.HandlerTaken;
    if rest == [] {
      assert run + rest == run;
    } else {
      var front := rest[..|rest| - 1];
      QuietCooperates(w, run, front);
      assert (run + rest)[..|run + rest| - 1] == run + front;
      Sizes(w, run + front);
    }
  }

  lemma DeliverLate(w: World, run: seq<Event>, i: nat, u: nat, k: Cont)
    requires Over(Run(w, run), i, u, Delivering, k, Run(w, run).s.causes) && Deliverable(Run(w, run).s)
    ensures var x := Run(w, run + Deliver(i, Later(Run(w, run).s)));
      Over(x, i, u, Leaving(End), k, Run(w, run).s.causes) && !x.s.terminal
    ensures Quiet(w, run, Deliver(i, Later(Run(w, run).s)))
  {
    hide Step, Run, Over, Deliverable, Quiet, Calm;
    Sizes(w, run);
    var v := Run(w, run);
    var late := Later(v.s);
    var two := [Event(i, GO), Event(i, Go(late, true, Accepted))];
    var b := FirstTwo(v, i, u, k);
    OverBound(b, i, u, DeliverNotify(b.s.epoch, b.s.conn, b.s.response, false), k, v.s.causes);
    var x := NextThree(b, i, u, k);
    RunTwo(w, run, two[0], two[1]);
    RunThree(w, run + two, Event(i, GO), Event(i, GO), Event(i, GO));
    RunTwo(w, run + two, Event(i, GO), Event(i, GO));
    QuietNone(w, run);
    QuietTwo(w, run, [], v, two[0], two[1]);
    assert [] + two == two;
    QuietTwo(w, run, two, b, Event(i, GO), Event(i, GO));
    var four := two + [Event(i, GO), Event(i, GO)];
    assert run + two + [Event(i, GO), Event(i, GO)] == run + four;
    QuietOne(w, run, four, Event(i, GO));
    assert four + [Event(i, GO)] == Deliver(i, late);
    assert run + two + [Event(i, GO), Event(i, GO), Event(i, GO)] == run + Deliver(i, late);
  }

  lemma QuietNone(w: World, run: seq<Event>)
    ensures Quiet(w, run, []) && run + [] == run
  {
  }

  lemma Leaves(e: World, i: nat, u: nat, k: Cont)
    requires Over(e, i, u, Leaving(End), k, e.s.causes)
    ensures Step(e, i, GO).threads[i] == Kicking(End)
  {
  }

  lemma LastFour(e: World, i: nat, u: nat, k: Cont) returns (g: World, x: World)
    requires Over(e, i, u, Leaving(End), k, e.s.causes) && !e.s.terminal
    ensures Bound(e, i, u) && Bound(Step(e, i, GO), i, u) && g == Step(Step(e, i, GO), i, GO)
    ensures Bound(g, i, u) && Bound(Step(g, u, GO), i, u) && x == Step(Step(g, u, GO), i, RunWork)
    ensures Calm(e, i) && Calm(Step(e, i, GO), i) && Calm(g, u) && Calm(Step(g, u, GO), i)
    ensures x.s.causes == e.s.causes.(badDelivery := true)
  {
    hide Next;
    g := Step(Step(e, i, GO), i, GO);
    GoHome(e, i, u, k, g);
    Leaves(e, i, u, k);
    x := Step(Step(g, u, GO), i, RunWork);
    PutOn(g, i, u, k, x);
  }

  lemma HandleAgain(w: World, run: seq<Event>, rest: seq<Event>, i: nat, u: nat, k: Cont)
    requires Over(Run(w, run + rest), i, u, Leaving(End), k, Run(w, run + rest).s.causes)
      && !Run(w, run + rest).s.terminal
    requires Quiet(w, run, rest)
    ensures Run(w, run + (rest + Again(i, u))).s.causes == Run(w, run + rest).s.causes.(badDelivery := true)
    ensures Quiet(w, run, rest + Again(i, u))
  {
    hide Step, Run, Over, Quiet, Calm;
    Sizes(w, run + rest);
    var g, x := LastFour(Run(w, run + rest), i, u, k);
    var home := [Event(i, GO), Event(i, GO)];
    RunTwo(w, run + rest, home[0], home[1]);
    QuietTwo(w, run, rest, Run(w, run + rest), home[0], home[1]);
    assert run + rest + home == run + (rest + home);
    RunTwo(w, run + (rest + home), Event(u, GO), Event(i, RunWork));
    QuietTwo(w, run, rest + home, g, Event(u, GO), Event(i, RunWork));
    assert rest + home + [Event(u, GO), Event(i, RunWork)] == rest + Again(i, u);
    assert run + (rest + home) + [Event(u, GO), Event(i, RunWork)] == run + (rest + Again(i, u));
  }

  /** From the overlap to the fault, in nine steps. */
  lemma Continue(w: World, run: seq<Event>, i: nat, u: nat, k: Cont) returns (rest: seq<Event>)
    requires Over(Run(w, run), i, u, Delivering, k, Run(w, run).s.causes) && Deliverable(Run(w, run).s)
    ensures Quiet(w, run, rest) && Run(w, run + rest).s.causes == Run(w, run).s.causes.(badDelivery := true)
  {
    hide Over, Deliverable, Deliver, Again, Quiet;
    DeliverLate(w, run, i, u, k);
    var late := Deliver(i, Later(Run(w, run).s));
    OverBound(Run(w, run + late), i, u, Leaving(End), k, Run(w, run).s.causes);
    HandleAgain(w, run, late, i, u, k);
    rest := late + Again(i, u);
  }

  lemma Sizes(w: World, run: seq<Event>)
    ensures |Run(w, run).threads| == |w.threads|
  {
  }

  lemma {:induction false} FindStarting(ts: seq<Pc>) returns (i: nat)
    requires Sum(Starting, ts) > 0
    ensures i < |ts| && ts[i] == Delivering
  {
    if Weight(Starting, ts[|ts| - 1]) > 0 {
      i := |ts| - 1;
    } else {
      i := FindStarting(ts[..|ts| - 1]);
    }
  }

  /** The first overlap of a run: what it leaves behind. */
  lemma OverlapTaken(v: World, u: nat, a: Action, i: nat, x: World, refs: int, n: nat)
    requires u < |v.threads| && i < |v.threads| && v.threads[i] == Delivering
    requires a.Go? && v.threads[u].Scheduling? && ScheduleTaken(v.s)
    requires Core(v.s, Counts(v.threads), refs, n) && x == Step(v, u, a)
    ensures Over(x, i, u, Delivering, v.threads[u].k, v.s.causes) && Deliverable(x.s)
  {
    SumAtLeast(Actors, v.threads, i);
  }

  /** A run that is cooperative up to one overlap can go on, with no further schedule, to latch the fault
      and nothing else. */
  lemma {:induction false} OverlapCanFault(w: World, run: seq<Event>, e: Event) returns (rest: seq<Event>)
    requires Boots(w) && Cooperative(w, run) && e.thread < |w.threads| && !Cooperative(w, run + [e])
    ensures Quiet(w, run + [e], rest) && Run(w, run + [e] + rest).s.causes == Run(w, run).s.causes.(badDelivery := true)
  {
    hide Step, Core, Over, Quiet;
    assert (run + [e])[..|run|] == run;
    var v := Run(w, run);
    RunSafe(w, run);
    RunOrderly(w, run);
    RunOne(w, run, e.thread, e.action);
    var i := FindStarting(v.threads);
    var x := Step(v, e.thread, e.action);
    OverlapTaken(v, e.thread, e.action, i, x, v.refs, |v.epochs|);
    OverBound(x, i, e.thread, Delivering, v.threads[e.thread].k, v.s.causes);
    rest := Continue(w, run + [e], i, e.thread, v.threads[e.thread].k);
  }

  /** So the overlap decides: after one more step of a cooperative run the fault is out of reach of every
      continuation that takes no further schedule exactly when that step was not an overlap. */
  lemma {:induction false} OverlapDecides(w: World, run: seq<Event>, e: Event)
    requires Boots(w) && Cooperative(w, run) && e.thread < |w.threads|
    ensures Cooperative(w, run + [e]) <==>
      forall rest :: Quiet(w, run + [e], rest) ==> !Run(w, run + [e] + rest).s.causes.badDelivery
  {
    hide Run, Boots, Quiet, Cooperative;
    if Cooperative(w, run + [e]) {
      forall rest | Quiet(w, run + [e], rest) ensures !Run(w, run + [e] + rest).s.causes.badDelivery {
        QuietCooperates(w, run + [e], rest);
        NoBadDelivery(w, run + [e] + rest);
      }
    } else {
      var rest := OverlapCanFault(w, run, e);
    }
  }
}
