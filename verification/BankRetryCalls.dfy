/**
 What `onResolved` is told, over every run: each call was made by one event,
 and the event decides the state it is called with.
 */
module BankRetryCalls {
  import opened Wrappers
  import opened BankRetry
  import opened BankRetryOverlap

  // ---------- What decides a call ----------

  /** Polled for 24 hours, or 1440 times. */
  predicate PastGuard(s: State, e: nat)
    requires e < |s.entries|
  {
    s.now - s.entries[e].startTime >= 86_400_000 || s.entries[e].attempt >= 1440
  }

  /** The event is one that ends the retry `e` with the state `final`. */
  predicate Ends(s: State, ev: Event, e: nat, final: TransactionState) {
    match final
    case Committed => (ReturnsFor(s, ev, e) && ev.outcome == Succeeded) || ForcesTo(s, ev, e, final)
    case RolledBack => (ReturnsFor(s, ev, e) && ev.outcome == Failed) || ForcesTo(s, ev, e, final)
    case ManualReview => GivesUp(s, ev, e) || ForcesTo(s, ev, e, final)
    case Pending => ForcesTo(s, ev, e, final)
    case PendingBankReconciliation => ForcesTo(s, ev, e, final)
  }

  predicate ForcesTo(s: State, ev: Event, e: nat, final: TransactionState) {
    ev.Force? && ev.paymentId in s.active && s.active[ev.paymentId] == e && ev.final == final
  }

  /** A check without a verdict returns for an unresolved retry that is past a guard. */
  predicate GivesUp(s: State, ev: Event, e: nat) {
    && ReturnsFor(s, ev, e) && (ev.outcome == StillPending || ev.outcome == Threw)
    && e < |s.entries| && !s.entries[e].resolved && PastGuard(s, e)
  }

  /** `r` has the calls of `s` and those the event makes. */
  ghost predicate CallsFollow(s: State, ev: Event, r: State) {
    && (forall e, final :: Ends(s, ev, e, final) ==> r.calls == s.calls + [Call(e, final)])
    && ((forall e, final :: !Ends(s, ev, e, final)) ==> r.calls == s.calls)
  }

  lemma ReturnCalls(s: State, c: nat, outcome: Outcome)
    requires WellFormed(s) && c in s.checks
    ensures CallsFollow(s, Return(c, outcome), OnReturn(s, c, outcome))
  {
    var e, ev := s.checks[c], Return(c, outcome);
    match outcome
    case Succeeded => assert Ends(s, ev, e, Committed);
    case Failed => assert Ends(s, ev, e, RolledBack);
    case StillPending => assert GivesUp(s, ev, e) ==> Ends(s, ev, e, ManualReview);
    case Threw => assert GivesUp(s, ev, e) ==> Ends(s, ev, e, ManualReview);
  }

  lemma ForceCalls(s: State, p: string, final: TransactionState)
    requires WellFormed(s)
    ensures CallsFollow(s, Force(p, final), OnForce(s, p, final))
  {
    if p in s.active {
      assert Ends(s, Force(p, final), s.active[p], final);
    }
  }

  lemma StepCalls(s: State, ev: Event)
    requires WellFormed(s) && Enabled(s, ev)
    ensures CallsFollow(s, ev, Step(s, ev))
  {
    match ev
    case Return(c, outcome) => ReturnCalls(s, c, outcome);
    case Force(p, final) => ForceCalls(s, p, final);
    case _ =>
  }

  // ---------- Over a run ----------

  /** How many of the first `k` events end `e` with `final`. */
  function EndingEvents(states: seq<State>, events: seq<Event>, e: nat, final: TransactionState, k: nat): nat
    requires |states| == |events| + 1 && k <= |events|
  {
    if k == 0 then 0
    else EndingEvents(states, events, e, final, k - 1) + if Ends(states[k - 1], events[k - 1], e, final) then 1 else 0
  }

  /** Every call was made by one event, and each such event makes one call, with the state it ends the retry with. */
  lemma CallsAreEndings(states: seq<State>, events: seq<Event>, e: nat, final: TransactionState, k: nat)
    requires Run(states, events) && k < |states|
    ensures multiset(states[k].calls)[Call(e, final)] == EndingEvents(states, events, e, final, k)
  {
    forall i | 0 <= i < |events| ensures OneMoreCall(states, events, e, final, i) {
      CallsInOrder(states, events, i);
      CallsCounted(states[i], events[i], states[i + 1], e, final);
    }
    CountEndings(states, events, e, final, k);
  }

  /** The event adds the call exactly when it ends the retry so. */
  ghost predicate OneMoreCall(states: seq<State>, events: seq<Event>, e: nat, final: TransactionState, i: nat)
    requires i < |events| && i + 1 < |states|
  {
    multiset(states[i + 1].calls)[Call(e, final)]
    == multiset(states[i].calls)[Call(e, final)] + if Ends(states[i], events[i], e, final) then 1 else 0
  }

  lemma {:induction false} CountEndings(
      states: seq<State>, events: seq<Event>, e: nat, final: TransactionState, k: nat)
    requires |states| == |events| + 1 && k < |states| && states[0].calls == []
    requires forall i :: 0 <= i < |events| ==> OneMoreCall(states, events, e, final, i)
    ensures multiset(states[k].calls)[Call(e, final)] == EndingEvents(states, events, e, final, k)
  {
    if k > 0 {
      CountEndings(states, events, e, final, k - 1);
      assert OneMoreCall(states, events, e, final, k - 1);
    }
  }

  lemma CallsCounted(s: State, ev: Event, r: State, e: nat, final: TransactionState)
    requires CallsFollow(s, ev, r)
    ensures multiset(r.calls)[Call(e, final)]
         == multiset(s.calls)[Call(e, final)] + if Ends(s, ev, e, final) then 1 else 0
  {
    if f, other :| Ends(s, ev, f, other) {
      if Ends(s, ev, e, final) {
        AppendInjective(s.calls, Call(e, final), Call(f, other));
      }
    }
  }

  lemma AppendInjective<T>(s: seq<T>, a: T, b: T)
    requires s + [a] == s + [b]
    ensures a == b
  {
    assert (s + [a])[|s|] == (s + [b])[|s|];
  }

  /** Calls are made in the order of the events: an event adds at most one, behind the earlier ones. */
  lemma CallsInOrder(states: seq<State>, events: seq<Event>, i: nat)
    requires Run(states, events) && i < |events|
    ensures CallsFollow(states[i], events[i], states[i + 1])
  {
    StepCalls(states[i], events[i]);
  }

  // ---------- Time and attempts, from the events ----------

  function Elapsed(events: seq<Event>, k: nat): int
    requires k <= |events|
  {
    if k == 0 then 0
    else Elapsed(events, k - 1) + if events[k - 1].Tick? then events[k - 1].ms else 0
  }

  function ReturnsBefore(states: seq<State>, events: seq<Event>, e: nat, k: nat): nat
    requires |states| == |events| + 1 && k <= |events|
  {
    if k == 0 then 0
    else ReturnsBefore(states, events, e, k - 1) + if ReturnsFor(states[k - 1], events[k - 1], e) then 1 else 0
  }

  predicate Begins(s: State, ev: Event, e: nat) {
    ev.StartRetry? && ev.paymentId !in s.active && |s.entries| == e
  }

  /** A payment that is not listed gets a new retry, whose first poll is 60 seconds away. */
  lemma StartEffect(s: State, ev: Event)
    requires WellFormed(s) && Enabled(s, ev)
    ensures var r, e, h := Step(s, ev), |s.entries|, s.nextTimer;
            if Begins(s, ev, e) then
              && r.entries == s.entries + [Entry(ev.paymentId, s.now, 1, Some(h), false)]
              && r.active == s.active[ev.paymentId := e]
              && r.timers == s.timers[h := Timer(e, s.now + 60_000)]
            else |r.entries| == e
  {
  }

  /** A check without a verdict arms the next poll, 60 seconds on, unless the retry is over. */
  lemma PollEffect(s: State, ev: Event, e: nat)
    requires WellFormed(s) && Enabled(s, ev) && ReturnsFor(s, ev, e) && ev.outcome in {StillPending, Threw}
    ensures var r, h := Step(s, ev), s.nextTimer;
            if !s.entries[e].resolved && !PastGuard(s, e) then
              && r.entries[e] == s.entries[e].(attempt := s.entries[e].attempt + 1, timer := Some(h))
              && r.timers == s.timers[h := Timer(e, s.now + 60_000)]
            else r.timers == s.timers
  {
  }

  lemma ReturnEntry(s: State, c: nat, outcome: Outcome, e: nat)
    requires WellFormed(s) && c in s.checks && e < |s.entries|
    ensures EntryFollows(s, Return(c, outcome), e, OnReturn(s, c, outcome))
  {
  }

  /** A retry keeps its payment and start, and polls once more for each check that does not end it. */
  ghost predicate EntryFollows(s: State, ev: Event, e: nat, r: State)
    requires e < |s.entries|
  {
    && e < |r.entries|
    && r.entries[e].paymentId == s.entries[e].paymentId && r.entries[e].startTime == s.entries[e].startTime
    && (!r.entries[e].resolved ==>
          && !s.entries[e].resolved
          && r.entries[e].attempt == s.entries[e].attempt + if ReturnsFor(s, ev, e) then 1 else 0)
  }

  lemma EntryAfter(s: State, ev: Event, e: nat)
    requires WellFormed(s) && Enabled(s, ev) && e < |s.entries|
    ensures EntryFollows(s, ev, e, Step(s, ev))
  {
    if ev.Return? {
      ReturnEntry(s, ev.check, ev.outcome, e);
    }
  }

  /** Which event started the retry `e`, and what its entry holds before event `k`. */
  ghost predicate StartedBy(states: seq<State>, events: seq<Event>, e: nat, k: nat, i: nat)
    requires |states| == |events| + 1 && k <= |events| && i < k && e < |states[k].entries|
  {
    var entry := states[k].entries[e];
    && Begins(states[i], events[i], e) && entry.paymentId == events[i].paymentId
    && entry.startTime == Elapsed(events, i)
    && (!entry.resolved ==> entry.attempt == 1 + ReturnsBefore(states, events, e, k))
  }

  lemma {:induction false} NoneReturned(states: seq<State>, events: seq<Event>, e: nat, k: nat)
    requires Run(states, events) && k <= |events| && |states[k].entries| <= e
    ensures ReturnsBefore(states, events, e, k) == 0
  {
    if k > 0 {
      assert states[k] == Step(states[k - 1], events[k - 1]);
      if e < |states[k - 1].entries| {
        EntryAfter(states[k - 1], events[k - 1], e);
      }
      NoneReturned(states, events, e, k - 1);
    }
  }

  lemma {:induction false} NowIsElapsed(states: seq<State>, events: seq<Event>, k: nat)
    requires Run(states, events) && k <= |events|
    ensures states[k].now == Elapsed(events, k)
  {
    if k > 0 {
      NowIsElapsed(states, events, k - 1);
      NowAfter(states[k - 1], events[k - 1]);
    }
  }

  lemma NowAfter(s: State, ev: Event)
    requires WellFormed(s) && Enabled(s, ev)
    ensures Step(s, ev).now == s.now + if ev.Tick? then ev.ms else 0
  {
  }

  lemma StartedKept(states: seq<State>, events: seq<Event>, e: nat, k: nat, i: nat)
    requires |states| == |events| + 1 && k < |events| && i < k && e < |states[k].entries|
    requires StartedBy(states, events, e, k, i) && EntryFollows(states[k], events[k], e, states[k + 1])
    ensures StartedBy(states, events, e, k + 1, i)
  {
  }

  lemma StartedNow(states: seq<State>, events: seq<Event>, e: nat, k: nat)
    requires Run(states, events) && k < |events| && |states[k].entries| <= e < |states[k + 1].entries|
    ensures StartedBy(states, events, e, k + 1, k)
  {
    StartEffect(states[k], events[k]);
    NowIsElapsed(states, events, k);
    NoneReturned(states, events, e, k);
    assert !ReturnsFor(states[k], events[k], e);
  }

  /**
   The guard looks at the time since the event that started the retry, and at
   one poll more than checks have returned.
   */
  lemma {:induction false} RetryStarted(states: seq<State>, events: seq<Event>, e: nat, k: nat)
    requires Run(states, events) && k <= |events| && e < |states[k].entries|
    ensures states[k].now == Elapsed(events, k)
    ensures exists i :: 0 <= i < k && StartedBy(states, events, e, k, i)
  {
    NowIsElapsed(states, events, k);
    if k > 0 {
      if e < |states[k - 1].entries| {
        RetryStarted(states, events, e, k - 1);
        var i :| 0 <= i < k - 1 && StartedBy(states, events, e, k - 1, i);
        EntryAfter(states[k - 1], events[k - 1], e);
        StartedKept(states, events, e, k - 1, i);
      } else {
        StartedNow(states, events, e, k - 1);
      }
    }
  }
}
