/**
 The button: one sample at a time in, at most one event out. What the events of a whole trace of
 samples mean.
 */
module Gesture {
  const TIME_MAX: nat := 0xFFFF_FFFF_FFFF_FFFF
  const DEBOUNCE: nat := 50
  const LONGEST: nat := 1000
  const SPAN: nat := 3500
  const QUIET: nat := 600

  datatype Event = Nothing | Press | Single | Five

  datatype State = State(last: nat, changed: nat, pressed: nat, deadline: nat, first: nat,
                         seen: bool, candidate: bool, stable: bool, released: bool, count: nat)

  const ZERO := State(0, 0, 0, 0, 0, false, false, false, false, 0)

  datatype Sample = Sample(level: int, t: nat)

  predicate Refuses(g: State, x: Sample) {
    (x.level != 0 && x.level != 1) || (g.seen && x.t < g.last) || x.t > TIME_MAX - 4000
  }

  /** The button's first sample. */
  function First(x: Sample): State {
    State(x.t, x.t, x.t, 0, 0, true, x.level == 1, x.level == 1, x.level == 0, 0)
  }

  /** Raw level taken in, before debouncing. */
  function Taken(g: State, x: Sample): State {
    var moved := g.candidate != (x.level == 1);
    g.(last := x.t, candidate := x.level == 1, changed := if moved then x.t else g.changed)
  }

  predicate Settles(g: State, t: nat) {
    g.stable != g.candidate && t - g.changed >= DEBOUNCE
  }

  /** While a five-tap gesture is being consumed. */
  function Consume(g: State, x: Sample): State {
    var down := x.level == 1;
    var deadline := if down then x.t + QUIET else g.deadline;
    var stable := if Settles(g, x.t) then g.candidate else g.stable;
    var quiet := !down && !stable && x.t >= deadline;
    g.(deadline := deadline, stable := stable, count := if quiet then 0 else g.count, released := g.released || quiet)
  }

  predicate GoodHold(g: State, t: nat) {
    g.released && DEBOUNCE <= t - g.pressed <= LONGEST && t - g.first <= SPAN
  }

  function Next(g: State, x: Sample): (State, Event) {
    if Refuses(g, x) then (ZERO, Nothing)
    else if !g.seen then (First(x), Nothing)
    else
      var h := Taken(g, x);
      if h.count == 5 then (Consume(h, x), Nothing)
      else if Settles(h, x.t) && x.level == 1 then
        var late := h.count > 0 && x.t >= h.deadline;
        var u := h.(stable := true, pressed := x.t, count := if late then 0 else h.count,
                    released := h.released && !late);
        if u.count == 0 && u.released then (u.(first := x.t), Press) else (u, Nothing)
      else
        var u := if !Settles(h, x.t) then h
                 else if GoodHold(h, x.t)
                   then h.(stable := false, count := h.count + 1, deadline := x.t + QUIET, released := true)
                 else h.(stable := false, count := 0, released := true);
        if Settles(h, x.t) && u.count == 5 then (u, Five)
        else if u.count > 0 && !u.stable && !u.candidate && x.t >= u.deadline then
          (u.(count := 0), if u.count == 1 then Single else Nothing)
        else (u, Nothing)
  }

  // ----- Traces -----------------------------------------------------------------------------------------

  /** Levels are levels, and time does not run backwards. */
  predicate Good(xs: seq<Sample>) {
    && (forall i :: 0 <= i < |xs| ==> 0 <= xs[i].level <= 1 && xs[i].t <= TIME_MAX - 4000)
    && (forall i, j :: 0 <= i < j < |xs| ==> xs[i].t <= xs[j].t)
  }

  /** The decoder after the first `n` samples. */
  function At(xs: seq<Sample>, n: nat): State
    requires n <= |xs|
  {
    if n == 0 then ZERO else Next(At(xs, n - 1), xs[n - 1]).0
  }

  /** What it said to sample `j`. */
  function Out(xs: seq<Sample>, j: nat): Event
    requires j < |xs|
  {
    Next(At(xs, j), xs[j]).1
  }

  /** The debounced level changed with sample `j`. */
  predicate Edge(xs: seq<Sample>, j: nat)
    requires j < |xs|
  {
    At(xs, j).seen && At(xs, j).stable != At(xs, j + 1).stable
  }

  /** What matters of the past: the last event, the debounced changes since (a PRESS is one itself), the
      last moment the button was seen down since, and the sample that ended a consumed gesture. */
  datatype Past = Past(event: Event, at: nat, edges: seq<nat>, down: nat, quiet: nat)

  function Advance(h: Past, g: State, u: State, e: Event, j: nat, x: Sample): Past {
    if !e.Nothing? then Past(e, j, if e.Press? then [j] else [], x.t, 0)
    else
      h.(edges := if g.seen && g.stable != u.stable then h.edges + [j] else h.edges,
         down := if x.level == 1 then x.t else h.down,
         quiet := if g.count == 5 && u.count == 0 then j else h.quiet)
  }

  function Remember(xs: seq<Sample>, n: nat): Past
    requires n <= |xs|
  {
    if n == 0 then Past(Nothing, 0, [], 0, 0)
    else Advance(Remember(xs, n - 1), At(xs, n - 1), At(xs, n), Out(xs, n - 1), n - 1, xs[n - 1])
  }

  /** Hold number `k` of the gesture that began with the first edge. */
  predicate HoldOk(xs: seq<Sample>, edges: seq<nat>, k: nat)
    requires 2 * k + 1 < |edges| && forall i :: 0 <= i < |edges| ==> edges[i] < |xs|
  {
    && DEBOUNCE <= xs[edges[2 * k + 1]].t - xs[edges[2 * k]].t <= LONGEST
    && xs[edges[2 * k + 1]].t - xs[edges[0]].t <= SPAN
  }

  predicate InOrder(edges: seq<nat>, n: nat) {
    (forall i :: 0 <= i < |edges| ==> edges[i] < n) && (forall i, j :: 0 <= i < j < |edges| ==> edges[i] < edges[j])
  }

  /** A gesture under way: `count` good holds since its PRESS, and a further press if the level is high. */
  predicate Underway(xs: seq<Sample>, n: nat, g: State, h: Past)
    requires n <= |xs|
  {
    && h.event.Press? && InOrder(h.edges, n) && |h.edges| == 2 * g.count + (if g.stable then 1 else 0)
    && |h.edges| > 0 && h.edges[0] == h.at && g.first == xs[h.at].t
    && (forall k :: 0 <= k < g.count ==> HoldOk(xs, h.edges, k))
    && (g.stable ==> g.pressed == xs[h.edges[|h.edges| - 1]].t)
  }

  /** A gesture being consumed: the deadline runs from the last moment the button was seen down. */
  predicate Consuming(xs: seq<Sample>, n: nat, g: State, h: Past)
    requires n <= |xs|
  {
    && h.event.Five? && h.at < n && g.deadline == h.down + QUIET && xs[h.at].t <= h.down
    && forall i :: h.at < i < n && xs[i].level == 1 ==> xs[i].t <= h.down
  }

  /** Sample `m` ended the consumption: 600 ms without a pressed sample lie before it. */
  predicate QuietBy(xs: seq<Sample>, at: nat, m: nat)
    requires at < m < |xs|
  {
    xs[at].t + QUIET <= xs[m].t && forall i :: at < i <= m && xs[i].level == 1 ==> xs[i].t + QUIET <= xs[m].t
  }

  /** One sample: the state and the past before and after. */
  predicate Moves(xs: seq<Sample>, j: nat, g: State, u: State, e: Event, h: Past, k: Past)
    requires j < |xs|
  {
    Good(xs) && (u, e) == Next(g, xs[j]) && k == Advance(h, g, u, e, j, xs[j])
    && g.seen == (j > 0) && (j > 0 ==> g.last == xs[j - 1].t)
  }

  predicate Busy(g: State) { 1 <= g.count <= 4 || (g.count == 0 && g.stable && g.released) }

  lemma Refused(xs: seq<Sample>, j: nat, g: State, u: State, e: Event, h: Past, k: Past)
    requires j < |xs| && Moves(xs, j, g, u, e, h, k)
    ensures !Refuses(g, xs[j]) && u.seen && u.last == xs[j].t
  {
  }

  /** A press that settles. */
  lemma RiseStep(xs: seq<Sample>, j: nat, g: State, u: State, e: Event, h: Past, k: Past)
    requires j < |xs| && Moves(xs, j, g, u, e, h, k) && g.count < 5 && g.seen
    requires Settles(Taken(g, xs[j]), xs[j].t) && xs[j].level == 1
    requires Busy(g) ==> Underway(xs, j, g, h)
    ensures Busy(u) ==> Underway(xs, j + 1, u, k)
    ensures u.count < 5 && !e.Single? && !e.Five?
  {
    Refused(xs, j, g, u, e, h, k);
    if e.Nothing? && Busy(u) {
      assert Busy(g) && u.count == g.count;
      assert k.edges == h.edges + [j];
      HoldsStay(xs, h.edges, j, g.count);
    }
  }

  lemma HoldsStay(xs: seq<Sample>, edges: seq<nat>, j: nat, count: nat)
    requires j < |xs| && InOrder(edges, j) && 2 * count <= |edges|
    requires forall k :: 0 <= k < count ==> HoldOk(xs, edges, k)
    ensures InOrder(edges + [j], j + 1) && forall k :: 0 <= k < count ==> HoldOk(xs, edges + [j], k)
  {
    forall k | 0 <= k < count ensures HoldOk(xs, edges + [j], k) {
      assert HoldOk(xs, edges, k);
    }
  }

  /** A release that settles. */
  lemma FallStep(xs: seq<Sample>, j: nat, g: State, u: State, e: Event, h: Past, k: Past)
    requires j < |xs| && Moves(xs, j, g, u, e, h, k) && g.count < 5 && g.seen
    requires Settles(Taken(g, xs[j]), xs[j].t) && xs[j].level == 0
    requires Busy(g) ==> Underway(xs, j, g, h)
    ensures Busy(u) ==> Underway(xs, j + 1, u, k)
    ensures e.Five? ==>
      && u.count == 5 && Underway(xs, j, g, h) && g.count == 4 && g.stable
      && GoodHold(Taken(g, xs[j]), xs[j].t)
    ensures u.count == 5 <==> e.Five?
    ensures u.count <= 5 && !e.Single? && !e.Press? && (e.Five? ==> u.deadline == xs[j].t + QUIET)
  {
    Refused(xs, j, g, u, e, h, k);
    if GoodHold(Taken(g, xs[j]), xs[j].t) {
      assert Busy(g);
      if u.count < 5 {
        assert k.edges == h.edges + [j];
        HoldsStay(xs, h.edges, j, g.count);
        LastHold(xs, h.edges, j, g.count);
      }
    }
  }

  lemma LastHold(xs: seq<Sample>, edges: seq<nat>, j: nat, count: nat)
    requires j < |xs| && InOrder(edges, j) && |edges| == 2 * count + 1
    requires DEBOUNCE <= xs[j].t - xs[edges[|edges| - 1]].t <= LONGEST && xs[j].t - xs[edges[0]].t <= SPAN
    ensures InOrder(edges + [j], j + 1) && HoldOk(xs, edges + [j], count)
  {
  }

  /** Nothing settles; a short gesture may time out. */
  lemma SteadyStep(xs: seq<Sample>, j: nat, g: State, u: State, e: Event, h: Past, k: Past)
    requires j < |xs| && Moves(xs, j, g, u, e, h, k) && g.count < 5 && g.seen && !Settles(Taken(g, xs[j]), xs[j].t)
    requires Busy(g) ==> Underway(xs, j, g, h)
    ensures Busy(u) ==> Underway(xs, j + 1, u, k)
    ensures u.count < 5 && !e.Press? && !e.Five? && (e.Single? ==> g.count == 1 && Underway(xs, j, g, h))
  {
    Refused(xs, j, g, u, e, h, k);
    if Busy(u) { assert k.edges == h.edges && Busy(g); }
  }

  /** The very first sample. */
  lemma FirstStep(xs: seq<Sample>, j: nat, g: State, u: State, e: Event, h: Past, k: Past)
    requires j < |xs| && Moves(xs, j, g, u, e, h, k) && !g.seen
    ensures u.count == 0 && e.Nothing? && !Busy(u)
  {
    Refused(xs, j, g, u, e, h, k);
  }

  /** A consumed gesture goes on, or ends quietly. */
  lemma ConsumeStep(xs: seq<Sample>, j: nat, g: State, u: State, e: Event, h: Past, k: Past)
    requires j < |xs| && Moves(xs, j, g, u, e, h, k) && g.count == 5 && g.seen && Consuming(xs, j, g, h)
    ensures e.Nothing? && (u.count == 5 || u.count == 0) && (u.count == 5 ==> Consuming(xs, j + 1, u, k))
    ensures u.count == 0 ==> !Busy(u) && k.quiet == j && QuietBy(xs, h.at, j)
  {
    Refused(xs, j, g, u, e, h, k);
  }

  /** The recorded past is the past: the last event, and silence since. */
  predicate Recorded(xs: seq<Sample>, n: nat, h: Past)
    requires n <= |xs|
  {
    && (!h.event.Nothing? ==> h.at < n && Out(xs, h.at) == h.event)
    && (forall i :: 0 <= i < n && (h.event.Nothing? || i > h.at) ==> Out(xs, i).Nothing?)
    && (h.event.Press? ==> forall m :: h.at <= m < n ==> (Edge(xs, m) <==> m in h.edges))
    && (forall m :: m in h.edges ==> m < n)
  }

  lemma PressIsEdge(xs: seq<Sample>, j: nat)
    requires j < |xs| && Out(xs, j).Press?
    ensures Edge(xs, j)
  {
  }

  predicate Inv(xs: seq<Sample>, n: nat, g: State, h: Past)
    requires n <= |xs|
  {
    && g.seen == (n > 0) && (n > 0 ==> g.last == xs[n - 1].t) && g.count <= 5
    && (Busy(g) ==> Underway(xs, n, g, h))
    && (g.count == 5 ==> Consuming(xs, n, g, h))
    && (h.event.Five? && g.count != 5 ==> h.at < h.quiet < n && QuietBy(xs, h.at, h.quiet))
  }

  lemma RecordedStep(xs: seq<Sample>, j: nat)
    requires j < |xs| && Recorded(xs, j, Remember(xs, j))
    ensures Recorded(xs, j + 1, Remember(xs, j + 1))
  {
    hide Next;
    var h, k := Remember(xs, j), Remember(xs, j + 1);
    if Out(xs, j).Press? { PressIsEdge(xs, j); }
    forall i | 0 <= i < j + 1 && (k.event.Nothing? || i > k.at) ensures Out(xs, i).Nothing? {
      if i < j { assert h.event.Nothing? || i > h.at; }
    }
  }

  lemma InvStep(xs: seq<Sample>, j: nat, g: State, u: State, e: Event, h: Past, k: Past)
    requires j < |xs| && Moves(xs, j, g, u, e, h, k) && Inv(xs, j, g, h)
    ensures Inv(xs, j + 1, u, k)
    ensures e.Single? ==> Underway(xs, j, g, h) && g.count == 1
    ensures e.Five? ==> Underway(xs, j, g, h) && g.count == 4 && g.stable && GoodHold(Taken(g, xs[j]), xs[j].t)
    ensures g.count == 5 ==> e.Nothing?
  {
    hide Next, Underway, Refuses;
    Refused(xs, j, g, u, e, h, k);
    if !g.seen {
      FirstStep(xs, j, g, u, e, h, k);
    } else if g.count == 5 {
      ConsumeStep(xs, j, g, u, e, h, k);
    } else if !Settles(Taken(g, xs[j]), xs[j].t) {
      SteadyStep(xs, j, g, u, e, h, k);
    } else if xs[j].level == 1 {
      RiseStep(xs, j, g, u, e, h, k);
    } else {
      FallStep(xs, j, g, u, e, h, k);
    }
  }

  lemma NothingYet(xs: seq<Sample>)
    requires Good(xs)
    ensures Inv(xs, 0, At(xs, 0), Remember(xs, 0)) && Recorded(xs, 0, Remember(xs, 0))
  {
  }

  lemma {:induction false} Always(xs: seq<Sample>, n: nat)
    requires Good(xs) && n <= |xs|
    ensures Inv(xs, n, At(xs, n), Remember(xs, n)) && Recorded(xs, n, Remember(xs, n))
  {
    hide Next, Underway, Moves, QuietBy, Consuming, Inv, Recorded;
    if n == 0 {
      NothingYet(xs);
    } else {
      Always(xs, n - 1);
      MovesHere(xs, n - 1);
      InvStep(xs, n - 1, At(xs, n - 1), At(xs, n), Out(xs, n - 1), Remember(xs, n - 1), Remember(xs, n));
      RecordedStep(xs, n - 1);
    }
  }

  lemma MovesHere(xs: seq<Sample>, j: nat)
    requires Good(xs) && j < |xs| && Inv(xs, j, At(xs, j), Remember(xs, j))
    ensures Moves(xs, j, At(xs, j), At(xs, j + 1), Out(xs, j), Remember(xs, j), Remember(xs, j + 1))
  {
    hide Next;
  }

  // ----- Main results ---------------------------------------------------------------------------------

  /** Every SINGLE and every FIVE is preceded by a PRESS, with no other event between. */
  lemma PressComesFirst(xs: seq<Sample>, j: nat) returns (i: nat)
    requires Good(xs) && j < |xs| && (Out(xs, j).Single? || Out(xs, j).Five?)
    ensures i < j && Out(xs, i).Press? && forall m :: i < m < j ==> Out(xs, m).Nothing?
  {
    hide Next, At, QuietBy, Consuming;
    Always(xs, j);
    MovesHere(xs, j);
    InvStep(xs, j, At(xs, j), At(xs, j + 1), Out(xs, j), Remember(xs, j), Remember(xs, j + 1));
    i := Remember(xs, j).at;
  }

  /** A FIVE ends five debounced holds: from the PRESS to this sample there are exactly ten debounced
      changes, each hold between two of them lasts 50 to 1000 ms, and all end within 3500 ms of the PRESS. */
  lemma FiveHolds(xs: seq<Sample>, j: nat) returns (edges: seq<nat>)
    requires Good(xs) && j < |xs| && Out(xs, j).Five?
    ensures |edges| == 10 && InOrder(edges, |xs|) && edges[9] == j && Out(xs, edges[0]).Press?
    ensures forall k :: 0 <= k < 5 ==> HoldOk(xs, edges, k)
    ensures xs[j].t - xs[edges[0]].t <= SPAN
    ensures forall m :: edges[0] < m < j ==> Out(xs, m).Nothing?
    ensures forall m :: edges[0] <= m <= j ==> (Edge(xs, m) <==> m in edges)
  {
    hide Next, At, QuietBy, Consuming;
    Always(xs, j);
    MovesHere(xs, j);
    FiveIsEdge(xs, j);
    var g, h := At(xs, j), Remember(xs, j);
    InvStep(xs, j, g, At(xs, j + 1), Out(xs, j), h, Remember(xs, j + 1));
    edges := h.edges + [j];
    HoldsStay(xs, h.edges, j, 4);
    LastHold(xs, h.edges, j, 4);
  }

  lemma FiveIsEdge(xs: seq<Sample>, j: nat)
    requires j < |xs| && Out(xs, j).Five?
    ensures Edge(xs, j)
  {
  }

  /** After a FIVE nothing is said until 600 ms have passed without a pressed sample. */
  lemma QuietAfterFive(xs: seq<Sample>, i: nat, j: nat) returns (m: nat)
    requires Good(xs) && i < j < |xs| && Out(xs, i).Five? && !Out(xs, j).Nothing?
    requires forall n :: i < n < j ==> Out(xs, n).Nothing?
    ensures i < m < j && QuietBy(xs, i, m)
  {
    hide Next, At, Underway, QuietBy, Consuming;
    Always(xs, j);
    MovesHere(xs, j);
    var h := Remember(xs, j);
    InvStep(xs, j, At(xs, j), At(xs, j + 1), Out(xs, j), h, Remember(xs, j + 1));
    assert h.event.Five? && h.at == i;
    m := h.quiet;
  }

  // ----- The decoder as the program keeps it --------------------------------------------------------------

  class Button {
    var g: State

    constructor ()
      ensures g == ZERO
    {
      g := ZERO;
    }

    /** bg_sample. */
    method Sampled(x: Sample) returns (e: Event)
      modifies this
      ensures (g, e) == Next(old(g), x)
    {
      if (x.level != 0 && x.level != 1) || (g.seen && x.t < g.last) || x.t > TIME_MAX - 4000 {
        g := ZERO;
        return Nothing;
      }
      var down := x.level == 1;
      if !g.seen {
        g := State(x.t, x.t, x.t, 0, 0, true, down, down, !down, 0);
        return Nothing;
      }
      g := g.(last := x.t, candidate := down, changed := if g.candidate != down then x.t else g.changed);
      var settles := g.stable != g.candidate && x.t - g.changed >= DEBOUNCE;
      if g.count == 5 {
        if down { g := g.(deadline := x.t + QUIET); }
        if settles { g := g.(stable := g.candidate); }
        if !down && !g.stable && x.t >= g.deadline { g := g.(count := 0, released := true); }
        return Nothing;
      }
      if settles {
        g := g.(stable := g.candidate);
        if down {
          g := g.(pressed := x.t);
          if g.count > 0 && x.t >= g.deadline { g := g.(count := 0, released := false); }
          if g.count == 0 && g.released {
            g := g.(first := x.t);
            return Press;
          }
        } else {
          var held := x.t - g.pressed;
          if g.released && DEBOUNCE <= held <= LONGEST && x.t - g.first <= SPAN {
            g := g.(count := g.count + 1, deadline := x.t + QUIET);
            if g.count == 5 { return Five; }
          } else {
            g := g.(count := 0);
          }
          g := g.(released := true);
        }
      }
      if g.count > 0 && !g.stable && !g.candidate && x.t >= g.deadline {
        var count := g.count;
        g := g.(count := 0);
        return if count == 1 then Single else Nothing;
      }
      return Nothing;
    }
  }
}
