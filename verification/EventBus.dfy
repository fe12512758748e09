/**
 The event bus of packages/core: `emit` calls every registered listener,
 retries each one that throws within its own budget, and dead-letters it when
 the budget is spent. Listeners of any number of emits interleave freely.
 */
module EventBus {
  import opened Wrappers

  const DEFAULT_MAX_RETRIES: int := 3

  /** Listeners are named by number. */
  type Listener = nat

  datatype Phase = Waiting | Calling | Sleeping | Delivered | Dead | Skipped

  /** One listener's turn in one emit; `calls` counts how often it was called. */
  datatype Job = Job(listener: Listener, budget: int, attempt: nat, calls: nat, phase: Phase)

  datatype Emission = Emission(event: string, jobs: seq<Job>, delivered: nat, failed: nat, deadLettered: nat)

  datatype DeadLetter = DeadLetter(emission: nat, job: nat, attempts: nat)

  datatype State = State(listeners: map<string, seq<Listener>>, maxRetries: map<Listener, int>,
                         emissions: seq<Emission>, deadLetterQueue: seq<DeadLetter>)

  const INITIAL := State(map[], map[], [], [])

  datatype Event =
    | On(event: string, listener: Listener, retries: Option<int>)
    | Off(event: string)
    | Emit(event: string)
    | Begin(emission: nat, job: nat)
    | Succeed(emission: nat, job: nat)
    | Throw(emission: nat, job: nat)
    | Wake(emission: nat, job: nat)

  // ---------- The steps ----------

  function ListenersOf(s: State, event: string): seq<Listener> {
    if event in s.listeners then s.listeners[event] else []
  }

  function Turn(listener: Listener): Job {
    Job(listener, 0, 0, 0, Waiting)
  }

  function BudgetOf(s: State, listener: Listener): int {
    if listener in s.maxRetries then s.maxRetries[listener] else DEFAULT_MAX_RETRIES
  }

  predicate HasJob(s: State, e: nat, j: nat) {
    e < |s.emissions| && j < |s.emissions[e].jobs|
  }

  function JobAt(s: State, e: nat, j: nat): Job
    requires HasJob(s, e, j)
  {
    s.emissions[e].jobs[j]
  }

  function SetJob(m: Emission, j: nat, job: Job): Emission
    requires j < |m.jobs|
  {
    m.(jobs := m.jobs[j := job])
  }

  /** May the event happen: is the listener at the point the event continues from? */
  predicate Enabled(s: State, ev: Event) {
    match ev
    case Begin(e, j) => HasJob(s, e, j) && JobAt(s, e, j).phase == Waiting
    case Succeed(e, j) => HasJob(s, e, j) && JobAt(s, e, j).phase == Calling
    case Throw(e, j) => HasJob(s, e, j) && JobAt(s, e, j).phase == Calling
    case Wake(e, j) => HasJob(s, e, j) && JobAt(s, e, j).phase == Sleeping
    case _ => true
  }

  function Step(s: State, ev: Event): State
    requires Enabled(s, ev)
  {
    match ev
    case On(event, listener, retries) =>
      s.(listeners := s.listeners[event := ListenersOf(s, event) + [listener]],
         maxRetries := if retries.Some? then s.maxRetries[listener := retries.value] else s.maxRetries)
    case Off(event) => s.(listeners := s.listeners - {event})
    case Emit(event) =>
      var fns := ListenersOf(s, event);
      s.(emissions := s.emissions + [Emission(event, seq(|fns|, i requires 0 <= i < |fns| => Turn(fns[i])), 0, 0, 0)])
    case Begin(e, j) =>
      var m, job := s.emissions[e], JobAt(s, e, j);
      var budget := BudgetOf(s, job.listener);
      s.(emissions := s.emissions[e := SetJob(m, j,
        if job.attempt <= budget then job.(budget := budget, calls := job.calls + 1, phase := Calling)
        else job.(budget := budget, phase := Skipped))])
    case Succeed(e, j) =>
      var m, job := s.emissions[e], JobAt(s, e, j);
      s.(emissions := s.emissions[e := SetJob(m, j, job.(phase := Delivered)).(delivered := m.delivered + 1)])
    case Throw(e, j) =>
      var m, job := s.emissions[e], JobAt(s, e, j);
      var attempt := job.attempt + 1;
      if attempt > job.budget then
        s.(emissions := s.emissions[e := SetJob(m, j, job.(attempt := attempt, phase := Dead))
                                         .(deadLettered := m.deadLettered + 1, failed := m.failed + 1)],
           deadLetterQueue := s.deadLetterQueue + [DeadLetter(e, j, attempt)])
      else
        s.(emissions := s.emissions[e := SetJob(m, j, job.(attempt := attempt, phase := Sleeping))])
    case Wake(e, j) =>
      var m, job := s.emissions[e], JobAt(s, e, j);
      s.(emissions := s.emissions[e := SetJob(m, j, job.(calls := job.calls + 1, phase := Calling))])
  }

  // ---------- The bus object ----------

  class Bus {
    var listeners: map<string, seq<Listener>>
    var listenerMaxRetries: map<Listener, int>
    var emissions: seq<Emission>
    var deadLetterQueue: seq<DeadLetter>

    ghost function Contents(): State
      reads this
    {
      State(listeners, listenerMaxRetries, emissions, deadLetterQueue)
    }

    constructor ()
      ensures Contents() == INITIAL
    {
      listeners, listenerMaxRetries, emissions, deadLetterQueue := map[], map[], [], [];
    }

    method On(event: string, listener: Listener, maxRetries: Option<int>)
      modifies this
      ensures Contents() == Step(old(Contents()), Event.On(event, listener, maxRetries))
    {
      var existing := if event in listeners then listeners[event] else [];
      existing := existing + [listener];
      listeners := listeners[event := existing];
      if maxRetries.Some? {
        listenerMaxRetries := listenerMaxRetries[listener := maxRetries.value];
      }
    }

    /** `emit` up to handing the snapshot of listeners to their turns. */
    method Emit(event: string) returns (e: nat)
      modifies this
      ensures e == |old(emissions)|
      ensures Contents() == Step(old(Contents()), Event.Emit(event))
    {
      var fns := if event in listeners then listeners[event] else [];
      e := |emissions|;
      emissions := emissions + [Emission(event, seq(|fns|, i requires 0 <= i < |fns| => Turn(fns[i])), 0, 0, 0)];
    }

    method BeginTurn(e: nat, j: nat)
      requires Enabled(Contents(), Begin(e, j))
      modifies this
      ensures Contents() == Step(old(Contents()), Begin(e, j))
    {
      var job := emissions[e].jobs[j];
      var maxRetries :=
        if job.listener in listenerMaxRetries then listenerMaxRetries[job.listener] else DEFAULT_MAX_RETRIES;
      job := job.(budget := maxRetries);
      if job.attempt <= maxRetries {
        job := job.(calls := job.calls + 1, phase := Calling);
      } else {
        job := job.(phase := Skipped);
      }
      emissions := emissions[e := SetJob(emissions[e], j, job)];
    }

    method ListenerReturns(e: nat, j: nat)
      requires Enabled(Contents(), Succeed(e, j))
      modifies this
      ensures Contents() == Step(old(Contents()), Succeed(e, j))
    {
      var m := emissions[e];
      m := SetJob(m, j, m.jobs[j].(phase := Delivered));
      emissions := emissions[e := m.(delivered := m.delivered + 1)];
    }

    method ListenerThrows(e: nat, j: nat)
      requires Enabled(Contents(), Throw(e, j))
      modifies this
      ensures Contents() == Step(old(Contents()), Throw(e, j))
    {
      var m := emissions[e];
      var job := m.jobs[j];
      job := job.(attempt := job.attempt + 1);
      if job.attempt > job.budget {
        deadLetterQueue := deadLetterQueue + [DeadLetter(e, j, job.attempt)];
        m := SetJob(m, j, job.(phase := Dead));
        emissions := emissions[e := m.(deadLettered := m.deadLettered + 1, failed := m.failed + 1)];
        return;
      }
      emissions := emissions[e := SetJob(m, j, job.(phase := Sleeping))];
    }

    method BackoffEnds(e: nat, j: nat)
      requires Enabled(Contents(), Wake(e, j))
      modifies this
      ensures Contents() == Step(old(Contents()), Wake(e, j))
    {
      var m := emissions[e];
      emissions := emissions[e := SetJob(m, j, m.jobs[j].(calls := m.jobs[j].calls + 1, phase := Calling))];
    }
  }

  /**
   One listener's turn on its own: `works(k)` says whether its `k`-th call
   succeeds. It is called until it first succeeds, at most budget + 1 times.
   */
  method DeliverAlone(works: nat -> bool, maxRetries: int)
    returns (delivered: bool, deadLettered: bool, calls: nat, attempt: nat)
    ensures delivered ==> 1 <= calls <= maxRetries + 1 && works(calls - 1)
    ensures forall k: nat :: k < attempt ==> !works(k)
    ensures deadLettered ==> attempt == calls == maxRetries + 1
    ensures delivered ==> calls == attempt + 1
    ensures maxRetries >= 0 ==> delivered != deadLettered
    ensures maxRetries < 0 ==> !delivered && !deadLettered && calls == 0
  {
    delivered, deadLettered, calls, attempt := false, false, 0, 0;
    while attempt <= maxRetries
      invariant !delivered && !deadLettered && calls == attempt
      invariant attempt == 0 || attempt <= maxRetries
      invariant forall k: nat :: k < attempt ==> !works(k)
      decreases maxRetries - attempt
    {
      calls := calls + 1;
      if works(attempt) {
        delivered := true;
        return;
      }
      attempt := attempt + 1;
      if attempt > maxRetries {
        deadLettered := true;
        return;
      }
    }
  }

  // ---------- What every interleaving keeps ----------

  function Count(jobs: seq<Job>, phase: Phase): nat {
    if jobs == [] then 0 else (if jobs[0].phase == phase then 1 else 0) + Count(jobs[1..], phase)
  }

  function One(b: bool): nat {
    if b then 1 else 0
  }

  lemma {:induction false} CountUpdate(jobs: seq<Job>, j: nat, job: Job, phase: Phase)
    requires j < |jobs|
    ensures Count(jobs[j := job], phase) + One(jobs[j].phase == phase) == Count(jobs, phase) + One(job.phase == phase)
  {
    if j > 0 {
      assert jobs[j := job][1..] == jobs[1..][j - 1 := job];
      CountUpdate(jobs[1..], j - 1, job, phase);
    } else {
      assert jobs[0 := job][1..] == jobs[1..];
    }
  }

  lemma {:induction false} CountNone(jobs: seq<Job>, phase: Phase)
    requires forall j :: 0 <= j < |jobs| ==> jobs[j].phase != phase
    ensures Count(jobs, phase) == 0
  {
    if jobs != [] {
      CountNone(jobs[1..], phase);
    }
  }

  /** How often a listener was called, at each point of its turn. */
  predicate JobOk(job: Job) {
    match job.phase
    case Waiting => job.calls == 0 && job.attempt == 0
    case Calling => job.calls == job.attempt + 1 && job.attempt <= job.budget
    case Sleeping => job.calls == job.attempt && job.attempt <= job.budget
    case Delivered => job.calls == job.attempt + 1 && job.attempt <= job.budget
    case Dead => job.calls == job.attempt == job.budget + 1 && job.budget >= 0
    case Skipped => job.calls == 0 && job.budget < 0
  }

  function LettersOf(queue: seq<DeadLetter>, e: nat): nat {
    if queue == [] then 0
    else LettersOf(queue[..|queue| - 1], e) + One(queue[|queue| - 1].emission == e)
  }

  ghost predicate EmissionOk(s: State, e: nat)
    requires e < |s.emissions|
  {
    var m := s.emissions[e];
    && (forall j :: 0 <= j < |m.jobs| ==> JobOk(m.jobs[j]))
    && m.delivered == Count(m.jobs, Delivered)
    && m.failed == m.deadLettered == Count(m.jobs, Dead) == LettersOf(s.deadLetterQueue, e)
  }

  /** Each dead letter names a listener that used up its own budget. */
  ghost predicate LetterOk(s: State, d: DeadLetter) {
    && HasJob(s, d.emission, d.job)
    && JobAt(s, d.emission, d.job).phase == Dead
    && d.attempts == JobAt(s, d.emission, d.job).budget + 1
  }

  ghost predicate LettersOk(s: State) {
    && (forall i {:trigger s.deadLetterQueue[i]} :: 0 <= i < |s.deadLetterQueue| ==> LetterOk(s, s.deadLetterQueue[i]))
    && (forall i, k :: 0 <= i < k < |s.deadLetterQueue| ==>
          || s.deadLetterQueue[i].emission != s.deadLetterQueue[k].emission
          || s.deadLetterQueue[i].job != s.deadLetterQueue[k].job)
  }

  ghost predicate Inv(s: State) {
    && (forall e {:trigger EmissionOk(s, e)} :: 0 <= e < |s.emissions| ==> EmissionOk(s, e))
    && LettersOk(s)
  }

  lemma LettersAppend(queue: seq<DeadLetter>, d: DeadLetter, e: nat)
    ensures LettersOf(queue + [d], e) == LettersOf(queue, e) + One(d.emission == e)
  {
    assert (queue + [d])[..|queue|] == queue;
  }

  lemma {:induction false} NoLetters(queue: seq<DeadLetter>, e: nat)
    requires forall i :: 0 <= i < |queue| ==> queue[i].emission != e
    ensures LettersOf(queue, e) == 0
  {
    if queue != [] {
      NoLetters(queue[..|queue| - 1], e);
    }
  }

  /** A step of one turn that neither ends it nor writes a dead letter, or delivers. */
  lemma TurnKeepsInv(s: State, e: nat, j: nat, job: Job, r: State)
    requires Inv(s) && HasJob(s, e, j)
    requires JobAt(s, e, j).phase != Dead && JobAt(s, e, j).phase != Delivered && JobOk(job) && job.phase != Dead
    requires r == s.(emissions := s.emissions[e := SetJob(s.emissions[e], j, job)
                     .(delivered := s.emissions[e].delivered + One(job.phase == Delivered))])
    ensures Inv(r)
  {
    forall f | 0 <= f < |r.emissions| ensures EmissionOk(r, f) {
      assert EmissionOk(s, f);
      if f == e {
        CountUpdate(s.emissions[e].jobs, j, job, Delivered);
        CountUpdate(s.emissions[e].jobs, j, job, Dead);
      }
    }
    forall i | 0 <= i < |r.deadLetterQueue| ensures LetterOk(r, r.deadLetterQueue[i]) {
      assert LetterOk(s, s.deadLetterQueue[i]);
    }
  }

  lemma DeathKeepsEmissions(s: State, e: nat, j: nat, f: nat)
    requires Inv(s) && Enabled(s, Throw(e, j)) && JobAt(s, e, j).attempt + 1 > JobAt(s, e, j).budget
    requires f < |s.emissions|
    ensures EmissionOk(Step(s, Throw(e, j)), f)
  {
    var last := JobAt(s, e, j);
    var job := last.(attempt := last.attempt + 1, phase := Dead);
    assert EmissionOk(s, e) && EmissionOk(s, f);
    LettersAppend(s.deadLetterQueue, DeadLetter(e, j, job.attempt), f);
    if f == e {
      assert JobOk(last);
      CountUpdate(s.emissions[e].jobs, j, job, Delivered);
      CountUpdate(s.emissions[e].jobs, j, job, Dead);
    }
  }

  lemma DeathKeepsLetters(s: State, e: nat, j: nat)
    requires Inv(s) && Enabled(s, Throw(e, j)) && JobAt(s, e, j).attempt + 1 > JobAt(s, e, j).budget
    ensures LettersOk(Step(s, Throw(e, j)))
  {
    var r := Step(s, Throw(e, j));
    assert EmissionOk(s, e);
    assert JobOk(JobAt(s, e, j));
    var n := |s.deadLetterQueue|;
    forall i | 0 <= i < n
      ensures LetterOk(r, s.deadLetterQueue[i])
      ensures s.deadLetterQueue[i].emission != e || s.deadLetterQueue[i].job != j
    {
      assert LetterOk(s, s.deadLetterQueue[i]);
    }
    assert r.deadLetterQueue == s.deadLetterQueue + [r.deadLetterQueue[n]];
    assert LetterOk(r, r.deadLetterQueue[n]);
  }

  lemma DeathKeepsInv(s: State, e: nat, j: nat)
    requires Inv(s) && Enabled(s, Throw(e, j)) && JobAt(s, e, j).attempt + 1 > JobAt(s, e, j).budget
    ensures Inv(Step(s, Throw(e, j)))
  {
    forall f | 0 <= f < |s.emissions| ensures EmissionOk(Step(s, Throw(e, j)), f) {
      DeathKeepsEmissions(s, e, j, f);
    }
    DeathKeepsLetters(s, e, j);
  }

  lemma EmitKeepsInv(s: State, event: string)
    requires Inv(s)
    ensures Inv(Step(s, Emit(event)))
  {
    var r := Step(s, Emit(event));
    var e := |s.emissions|;
    forall f | 0 <= f < |r.emissions| ensures EmissionOk(r, f) {
      if f < e {
        assert EmissionOk(s, f);
      } else {
        CountNone(r.emissions[e].jobs, Delivered);
        CountNone(r.emissions[e].jobs, Dead);
        forall i | 0 <= i < |s.deadLetterQueue| ensures s.deadLetterQueue[i].emission != e {
          assert LetterOk(s, s.deadLetterQueue[i]);
        }
        NoLetters(s.deadLetterQueue, e);
      }
    }
    forall i | 0 <= i < |r.deadLetterQueue| ensures LetterOk(r, r.deadLetterQueue[i]) {
      assert LetterOk(s, s.deadLetterQueue[i]);
    }
  }

  lemma RegisterKeepsInv(s: State, ev: Event)
    requires Inv(s) && (ev.On? || ev.Off?)
    ensures Inv(Step(s, ev))
  {
    var r := Step(s, ev);
    forall f | 0 <= f < |r.emissions| ensures EmissionOk(r, f) {
      assert EmissionOk(s, f);
    }
    forall i | 0 <= i < |r.deadLetterQueue| ensures LetterOk(r, r.deadLetterQueue[i]) {
      assert LetterOk(s, s.deadLetterQueue[i]);
    }
  }

  lemma TurnOk(s: State, e: nat, j: nat)
    requires Inv(s) && HasJob(s, e, j)
    ensures JobOk(JobAt(s, e, j))
  {
    assert EmissionOk(s, e);
  }

  lemma StepKeepsInv(s: State, ev: Event)
    requires Inv(s) && Enabled(s, ev)
    ensures Inv(Step(s, ev))
  {
    if ev.Emit? {
      EmitKeepsInv(s, ev.event);
    } else if ev.On? || ev.Off? {
      RegisterKeepsInv(s, ev);
    } else {
      var e, j := ev.emission, ev.job;
      TurnOk(s, e, j);
      if ev.Throw? && JobAt(s, e, j).attempt + 1 > JobAt(s, e, j).budget {
        DeathKeepsInv(s, e, j);
      } else {
        TurnKeepsInv(s, e, j, JobAt(Step(s, ev), e, j), Step(s, ev));
      }
    }
  }

  // ---------- Runs ----------

  ghost predicate Run(states: seq<State>, events: seq<Event>) {
    && |states| == |events| + 1 && states[0] == INITIAL
    && forall i {:trigger events[i]} :: 0 <= i < |events| ==>
         Enabled(states[i], events[i]) && states[i + 1] == Step(states[i], events[i])
  }

  lemma {:induction false} RunKeepsInv(states: seq<State>, events: seq<Event>, k: nat)
    requires Run(states, events) && k < |states|
    ensures Inv(states[k])
  {
    if k > 0 {
      RunKeepsInv(states, events, k - 1);
      assert Enabled(states[k - 1], events[k - 1]);
      StepKeepsInv(states[k - 1], events[k - 1]);
    }
  }

  /** `emit` has resolved: every listener's turn is over. */
  predicate Resolved(m: Emission) {
    forall j :: 0 <= j < |m.jobs| ==> m.jobs[j].phase in {Delivered, Dead, Skipped}
  }

  lemma {:induction false} ResolvedCounts(jobs: seq<Job>)
    requires forall j :: 0 <= j < |jobs| ==> jobs[j].phase in {Delivered, Dead, Skipped}
    ensures Count(jobs, Delivered) + Count(jobs, Dead) + Count(jobs, Skipped) == |jobs|
  {
    if jobs != [] {
      ResolvedCounts(jobs[1..]);
    }
  }

  lemma {:induction false} CountZero(jobs: seq<Job>, phase: Phase)
    requires Count(jobs, phase) == 0
    ensures forall j :: 0 <= j < |jobs| ==> jobs[j].phase != phase
  {
    if jobs != [] {
      CountZero(jobs[1..], phase);
      forall j | 0 <= j < |jobs| ensures jobs[j].phase != phase {
        assert j == 0 || jobs[j] == jobs[1..][j - 1];
      }
    }
  }

  /**
   In every interleaving, once an emit has resolved: failed equals dead
   lettered, which is the number of its dead letters; delivered plus dead
   lettered equals the number of listeners exactly when no budget was negative;
   and no listener was called more than its budget plus one times.
   */
  lemma EmitConserves(states: seq<State>, events: seq<Event>, k: nat, e: nat)
    requires Run(states, events) && k < |states|
    requires e < |states[k].emissions| && Resolved(states[k].emissions[e])
    ensures var s, m := states[k], states[k].emissions[e];
            && m.failed == m.deadLettered == LettersOf(s.deadLetterQueue, e)
            && (m.delivered + m.deadLettered == |m.jobs| <==> forall j :: 0 <= j < |m.jobs| ==> m.jobs[j].budget >= 0)
            && (forall j :: 0 <= j < |m.jobs| && m.jobs[j].budget >= 0 ==> 1 <= m.jobs[j].calls <= m.jobs[j].budget + 1)
            && (forall j :: 0 <= j < |m.jobs| && m.jobs[j].phase == Dead ==> m.jobs[j].calls == m.jobs[j].budget + 1)
  {
    RunKeepsInv(states, events, k);
    var s, m := states[k], states[k].emissions[e];
    assert EmissionOk(s, e);
    ResolvedCounts(m.jobs);
    assert forall j :: 0 <= j < |m.jobs| ==> JobOk(m.jobs[j]);
    if m.delivered + m.deadLettered == |m.jobs| {
      CountZero(m.jobs, Skipped);
    }
    if forall j :: 0 <= j < |m.jobs| ==> m.jobs[j].budget >= 0 {
      CountNone(m.jobs, Skipped);
    }
  }

  /** At every point each dead letter carries its own listener's budget plus one, and no turn has two. */
  lemma DeadLettersAreExhausted(states: seq<State>, events: seq<Event>, k: nat)
    requires Run(states, events) && k < |states|
    ensures LettersOk(states[k])
  {
    RunKeepsInv(states, events, k);
  }

  /** A turn that is over stays over: nothing is called again after success or death. */
  lemma {:induction false} FinishedStaysFinished(states: seq<State>, events: seq<Event>, a: nat, b: nat, e: nat, j: nat)
    requires Run(states, events) && a <= b < |states|
    requires HasJob(states[a], e, j) && JobAt(states[a], e, j).phase in {Delivered, Dead, Skipped}
    ensures HasJob(states[b], e, j) && JobAt(states[b], e, j) == JobAt(states[a], e, j)
    decreases b
  {
    if a < b {
      FinishedStaysFinished(states, events, a, b - 1, e, j);
      assert Enabled(states[b - 1], events[b - 1]);
    }
  }
}
