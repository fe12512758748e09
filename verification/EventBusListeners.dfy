/**
 Who is called by an emit, from the calls of `on`, `off` and `emit` alone: the
 listeners registered since the last `off`, in order, each with the retries
 last given for it.
 */
module EventBusListeners {
  import opened Wrappers
  import opened EventBus

  // ---------- What the events say ----------

  /** The listeners given to `on` for the event, in order. */
  function Given(events: seq<Event>, event: string): seq<Listener> {
    if events == [] then []
    else
      var last := events[|events| - 1];
      Given(events[..|events| - 1], event) + if last.On? && last.event == event then [last.listener] else []
  }

  /** `off` of the event comes right before position `a`, or never, and not between `a` and `k`. */
  ghost predicate SinceOff(events: seq<Event>, event: string, a: nat, k: nat) {
    && a <= k <= |events|
    && (a == 0 || events[a - 1] == Off(event))
    && forall i :: a <= i < k ==> events[i] != Off(event)
  }

  lemma {:induction false} SomeSinceOff(events: seq<Event>, event: string, k: nat) returns (a: nat)
    requires k <= |events|
    ensures SinceOff(events, event, a, k)
  {
    if k == 0 || events[k - 1] == Off(event) {
      a := k;
    } else {
      a := SomeSinceOff(events, event, k - 1);
    }
  }

  predicate GivesRetries(ev: Event, listener: Listener) {
    ev.On? && ev.listener == listener && ev.retries.Some?
  }

  /** `on` gave the listener this number of retries at `r`, and none later before `k`. */
  ghost predicate LastGiven(events: seq<Event>, listener: Listener, budget: int, r: nat, k: nat) {
    && r < k <= |events| && GivesRetries(events[r], listener) && events[r].retries == Some(budget)
    && forall q :: r < q < k ==> !GivesRetries(events[q], listener)
  }

  /** The retries last given for the listener before `k`, for whatever event, or 3. */
  ghost predicate BudgetBefore(events: seq<Event>, listener: Listener, budget: int, k: nat)
    requires k <= |events|
  {
    || (exists r :: LastGiven(events, listener, budget, r, k))
    || (budget == 3 && forall q :: 0 <= q < k ==> !GivesRetries(events[q], listener))
  }

  function Emits(events: seq<Event>): nat {
    if events == [] then 0 else Emits(events[..|events| - 1]) + One(events[|events| - 1].Emit?)
  }

  // ---------- What the bus holds ----------

  lemma ListenersStep(s: State, ev: Event, event: string)
    requires Enabled(s, ev) && ev != Off(event)
    ensures ListenersOf(Step(s, ev), event)
         == ListenersOf(s, event) + if ev.On? && ev.event == event then [ev.listener] else []
  {
  }

  lemma GivenAppend(events: seq<Event>, event: string, a: nat, k: nat)
    requires a < k <= |events|
    ensures Given(events[a..k], event) == Given(events[a..k - 1], event)
                                        + if events[k - 1].On? && events[k - 1].event == event
                                          then [events[k - 1].listener] else []
  {
    assert events[a..k][..k - 1 - a] == events[a..k - 1];
  }

  lemma {:induction false} ListenersAreGiven(states: seq<State>, events: seq<Event>, event: string, a: nat, k: nat)
    requires Run(states, events) && k <= |events| && SinceOff(events, event, a, k)
    ensures ListenersOf(states[k], event) == Given(events[a..k], event)
  {
    if a < k {
      ListenersAreGiven(states, events, event, a, k - 1);
      ListenersStep(states[k - 1], events[k - 1], event);
      GivenAppend(events, event, a, k);
    } else if k > 0 {
      assert states[k] == Step(states[k - 1], events[k - 1]);
    }
  }

  lemma BudgetStep(s: State, ev: Event, listener: Listener)
    requires Enabled(s, ev)
    ensures BudgetOf(Step(s, ev), listener)
         == if GivesRetries(ev, listener) then ev.retries.value else BudgetOf(s, listener)
  {
  }

  lemma {:induction false} BudgetIsLastGiven(states: seq<State>, events: seq<Event>, listener: Listener, k: nat)
    requires Run(states, events) && k <= |events|
    ensures BudgetBefore(events, listener, BudgetOf(states[k], listener), k)
  {
    if k > 0 {
      var i, budget := k - 1, BudgetOf(states[k - 1], listener);
      BudgetIsLastGiven(states, events, listener, i);
      BudgetStep(states[i], events[i], listener);
      if GivesRetries(events[i], listener) {
        assert LastGiven(events, listener, BudgetOf(states[k], listener), i, k);
      } else if r: nat :| LastGiven(events, listener, budget, r, i) {
        assert LastGiven(events, listener, budget, r, k);
      }
    }
  }

  lemma {:induction false} EmissionsAreEmits(states: seq<State>, events: seq<Event>, k: nat)
    requires Run(states, events) && k <= |events|
    ensures |states[k].emissions| == Emits(events[..k])
  {
    if k > 0 {
      EmissionsAreEmits(states, events, k - 1);
      assert events[..k][..k - 1] == events[..k - 1];
      assert states[k] == Step(states[k - 1], events[k - 1]);
    }
  }

  /** The emission has one turn for each of the listeners, in order. */
  ghost predicate TurnsOf(m: Emission, listeners: seq<Listener>) {
    |m.jobs| == |listeners| && forall j :: 0 <= j < |m.jobs| ==> m.jobs[j].listener == listeners[j]
  }

  /** The event is the emit with as many before it, and the turns are of those registered by then. */
  ghost predicate EmittedBy(events: seq<Event>, e: nat, m: Emission, i: nat)
    requires i < |events|
  {
    && events[i] == Emit(m.event) && Emits(events[..i]) == e
    && forall a: nat :: SinceOff(events, m.event, a, i) ==> TurnsOf(m, Given(events[a..i], m.event))
  }

  lemma OthersKept(s: State, ev: Event, e: nat)
    requires Enabled(s, ev) && e < |s.emissions|
    ensures var r := Step(s, ev);
            && e < |r.emissions| && r.emissions[e].event == s.emissions[e].event
            && |r.emissions[e].jobs| == |s.emissions[e].jobs|
            && forall j :: 0 <= j < |s.emissions[e].jobs| ==>
                 r.emissions[e].jobs[j].listener == s.emissions[e].jobs[j].listener
  {
  }

  lemma NewEmission(states: seq<State>, events: seq<Event>, i: nat)
    requires Run(states, events) && i < |events| && |states[i].emissions| < |states[i + 1].emissions|
    ensures |states[i + 1].emissions| == |states[i].emissions| + 1
    ensures var e := |states[i].emissions|;
            e == Emits(events[..i]) ==> EmittedBy(events, e, states[i + 1].emissions[e], i)
  {
    var s, ev, e := states[i], events[i], |states[i].emissions|;
    EmitStep(s, ev);
    var m := states[i + 1].emissions[e];
    forall a: nat | SinceOff(events, m.event, a, i) ensures TurnsOf(m, Given(events[a..i], m.event)) {
      ListenersAreGiven(states, events, m.event, a, i);
    }
  }

  lemma EmitStep(s: State, ev: Event)
    requires Enabled(s, ev) && |s.emissions| < |Step(s, ev).emissions|
    ensures |Step(s, ev).emissions| == |s.emissions| + 1
    ensures var m := Step(s, ev).emissions[|s.emissions|];
            ev == Emit(m.event) && TurnsOf(m, ListenersOf(s, m.event))
  {
  }

  /**
   In every interleaving the turns of the `e`-th emit are exactly those of the
   listeners registered for its event since the last `off`, in order.
   */
  lemma {:induction false} TurnsAreRegistered(states: seq<State>, events: seq<Event>, e: nat, k: nat)
    requires Run(states, events) && k <= |events| && e < |states[k].emissions|
    ensures exists i :: 0 <= i < k && EmittedBy(events, e, states[k].emissions[e], i)
  {
    if k > 0 {
      var s, ev := states[k - 1], events[k - 1];
      assert states[k] == Step(s, ev);
      if e < |s.emissions| {
        TurnsAreRegistered(states, events, e, k - 1);
        var i :| 0 <= i < k - 1 && EmittedBy(events, e, s.emissions[e], i);
        OthersKept(s, ev, e);
        assert EmittedBy(events, e, states[k].emissions[e], i);
      } else {
        EmissionsAreEmits(states, events, k - 1);
        NewEmission(states, events, k - 1);
      }
    }
  }

  /** The turn began before `k`, with the retries last given by then. */
  ghost predicate BegunBy(events: seq<Event>, e: nat, j: nat, job: Job, k: nat)
    requires k <= |events|
  {
    exists b :: 0 <= b < k && events[b] == Begin(e, j) && BudgetBefore(events, job.listener, job.budget, b)
  }

  lemma TurnStep(s: State, ev: Event, e: nat, j: nat)
    requires Enabled(s, ev) && HasJob(s, e, j)
    ensures HasJob(Step(s, ev), e, j)
    ensures var job, next := JobAt(s, e, j), JobAt(Step(s, ev), e, j);
            && next.listener == job.listener
            && (ev == Begin(e, j) ==> next.budget == BudgetOf(s, job.listener))
            && (ev != Begin(e, j) ==> next.budget == job.budget && (next.phase == Waiting <==> job.phase == Waiting))
  {
  }

  /** A turn that has begun has the budget that was last given for its listener. */
  lemma {:induction false} BudgetsAreGiven(states: seq<State>, events: seq<Event>, e: nat, j: nat, k: nat)
    requires Run(states, events) && k <= |events|
    requires HasJob(states[k], e, j) && JobAt(states[k], e, j).phase != Waiting
    ensures BegunBy(events, e, j, JobAt(states[k], e, j), k)
  {
    if k > 0 {
      var s, ev := states[k - 1], events[k - 1];
      assert states[k] == Step(s, ev);
      if HasJob(s, e, j) {
        TurnStep(s, ev, e, j);
        if ev == Begin(e, j) {
          BudgetIsLastGiven(states, events, JobAt(s, e, j).listener, k - 1);
          assert events[k - 1] == Begin(e, j);
        } else {
          BudgetsAreGiven(states, events, e, j, k - 1);
        }
      } else {
        NewTurnWaits(s, ev, e, j);
      }
    }
  }

  lemma NewTurnWaits(s: State, ev: Event, e: nat, j: nat)
    requires Enabled(s, ev) && !HasJob(s, e, j) && HasJob(Step(s, ev), e, j)
    ensures JobAt(Step(s, ev), e, j).phase == Waiting
  {
  }

  /**
   Once the `e`-th emit has resolved, what it reports adds up to the number of
   listeners registered since the last `off`, exactly when none of them had
   been given a negative number of retries by the time its turn began.
   */
  lemma EmitReachesRegistered(states: seq<State>, events: seq<Event>, e: nat, k: nat)
    requires Run(states, events) && k <= |events|
    requires e < |states[k].emissions| && Resolved(states[k].emissions[e])
    ensures var m := states[k].emissions[e];
            && (forall j :: 0 <= j < |m.jobs| ==> BegunBy(events, e, j, m.jobs[j], k))
            && exists i: nat, a: nat :: i < k && EmittedBy(events, e, m, i) && SinceOff(events, m.event, a, i)
                              && (m.delivered + m.deadLettered == |Given(events[a..i], m.event)|
                                  <==> forall j :: 0 <= j < |m.jobs| ==> m.jobs[j].budget >= 0)
  {
    var m := states[k].emissions[e];
    EmitConserves(states, events, k, e);
    TurnsAreRegistered(states, events, e, k);
    var i :| 0 <= i < k && EmittedBy(events, e, m, i);
    var a := SomeSinceOff(events, m.event, i);
    assert TurnsOf(m, Given(events[a..i], m.event));
    forall j | 0 <= j < |m.jobs| ensures BegunBy(events, e, j, m.jobs[j], k) {
      assert JobAt(states[k], e, j).phase != Waiting;
      BudgetsAreGiven(states, events, e, j, k);
    }
  }
}
