/**
 How long a bank retry polls, over every run: whatever its callers force,
 cancel or start meanwhile, and listed or not.
 */
module BankRetryTime {
  import opened BankRetry
  import opened BankRetryOverlap

  /** The time at which as many polls as the entry has made can be over. */
  function Earliest(entry: Entry): int {
    entry.startTime + POLL_INTERVAL_MS * entry.attempt
  }

  /** Sixty seconds have passed, or will before the timer fires, for every poll. */
  predicate TimeFits(s: State, e: nat)
    requires e < |s.entries|
  {
    var entry := s.entries[e];
    && entry.startTime <= s.now && entry.attempt <= MAX_POLL_ATTEMPTS
    && (Armed(s, e) ==> Earliest(entry) <= s.timers[entry.timer.value].due)
    && (Checking(s, e) ==> Earliest(entry) <= s.now)
  }

  ghost predicate AllTimed(s: State) {
    forall e {:trigger TimeFits(s, e)} :: 0 <= e < |s.entries| ==> TimeFits(s, e)
  }

  lemma ReturnTimed(s: State, c: nat, outcome: Outcome, e: nat)
    requires AnyInv(s) && AllTimed(s) && c in s.checks && e < |s.entries|
    ensures e < |OnReturn(s, c, outcome).entries| && TimeFits(OnReturn(s, c, outcome), e)
  {
    assert HandleFits(s, c) && HandleFits(s, s.nextTimer);
    assert TimeFits(s, e) && TimeFits(s, s.checks[c]);
  }

  lemma ForceTimed(s: State, p: string, final: TransactionState, e: nat)
    requires AnyInv(s) && AllTimed(s) && e < |s.entries|
    ensures e < |OnForce(s, p, final).entries| && TimeFits(OnForce(s, p, final), e)
  {
    assert TimeFits(s, e);
  }

  lemma StartTimed(s: State, p: string)
    requires AnyInv(s) && AllTimed(s)
    ensures AllTimed(Start(s, p))
  {
    assert HandleFits(s, s.nextTimer);
    forall e | 0 <= e < |Start(s, p).entries| ensures TimeFits(Start(s, p), e) {
      assert e < |s.entries| ==> TimeFits(s, e);
    }
  }

  lemma FireTimed(s: State, t: nat, e: nat)
    requires AnyInv(s) && AllTimed(s) && Enabled(s, Fire(t)) && e < |s.entries|
    ensures e < |Step(s, Fire(t)).entries| && TimeFits(Step(s, Fire(t)), e)
  {
    assert TimeFits(s, e) && HandleFits(s, t);
  }

  lemma StepTimed(s: State, ev: Event)
    requires AnyInv(s) && AllTimed(s) && Enabled(s, ev)
    ensures AllTimed(Step(s, ev))
  {
    if ev.StartRetry? {
      StartTimed(s, ev.paymentId);
    } else {
      forall e | 0 <= e < |Step(s, ev).entries| ensures TimeFits(Step(s, ev), e) {
        match ev
        case Fire(t) => FireTimed(s, t, e);
        case Return(c, outcome) => ReturnTimed(s, c, outcome, e);
        case Force(p, final) => ForceTimed(s, p, final, e);
        case CancelAll => assert TimeFits(s, e);
        case Tick(_) => assert TimeFits(s, e);
      }
    }
  }

  lemma {:induction false} RunTimed(states: seq<State>, events: seq<Event>, k: nat)
    requires Run(states, events) && k < |states|
    ensures AllTimed(states[k])
  {
    if k > 0 {
      RunTimed(states, events, k - 1);
      RunKeepsAny(states, events, k - 1);
      assert states[k] == Step(states[k - 1], events[k - 1]);
      StepTimed(states[k - 1], events[k - 1]);
    }
  }

  /** How a retry goes on, or ends, when its check has no verdict. */
  ghost predicate GoesOn(s: State, after: State, e: nat)
    requires e < |s.entries|
  {
    && |after.entries| == |s.entries|
    && if s.now - s.entries[e].startTime >= MAX_POLL_DURATION_MS then
         after.entries[e].resolved && !Live(after, e) && after.calls == s.calls + [Call(e, ManualReview)]
       else
         && !after.entries[e].resolved && (Live(after, e) <==> Live(s, e)) && after.calls == s.calls
         && after.entries[e].attempt == s.entries[e].attempt + 1 <= MAX_POLL_ATTEMPTS
         && after.timers == s.timers[s.nextTimer := Timer(e, s.now + POLL_INTERVAL_MS)]
         && (forall t :: t in after.timers && after.timers[t].entry == e <==> t == s.nextTimer)
         && (forall t :: t in after.checks ==> after.checks[t] != e)
  }

  lemma CheckEndsOrGoesOn(s: State, c: nat, outcome: Outcome)
    requires AnyInv(s) && AllTimed(s) && c in s.checks && !Verdict(outcome) && !s.entries[s.checks[c]].resolved
    ensures var entry := s.entries[s.checks[c]];
            && POLL_INTERVAL_MS * entry.attempt <= s.now - entry.startTime
            && (entry.attempt >= MAX_POLL_ATTEMPTS ==> s.now - entry.startTime >= MAX_POLL_DURATION_MS)
    ensures GoesOn(s, OnReturn(s, c, outcome), s.checks[c])
  {
    var e, after := s.checks[c], OnReturn(s, c, outcome);
    assert HandleFits(s, c) && HandleFits(s, s.nextTimer) && TimeFits(s, e);
    forall t | t in s.timers ensures s.timers[t].entry != e {
      assert HandleFits(s, t);
    }
    forall t | t in after.checks ensures after.checks[t] != e {
      assert HandleFits(s, t);
    }
    if s.now - s.entries[e].startTime < MAX_POLL_DURATION_MS {
      assert s.nextTimer in after.timers;
    }
  }

  /**
   When the check of an unresolved entry comes back without a verdict, in any
   run: 60 seconds have passed for every poll so far, so the attempt limit is
   never reached before the 24 hours; from 24 hours on the retry ends in manual
   review, and before that it goes on with exactly one timer, listed or not as
   it was, and with attempts within the limit.
   */
  lemma DurationGuardTripsFirst(states: seq<State>, events: seq<Event>, k: nat)
    requires Run(states, events) && k < |events|
    requires events[k].Return? && !Verdict(events[k].outcome)
    requires events[k].check in states[k].checks && states[k].checks[events[k].check] < |states[k].entries|
    requires !states[k].entries[states[k].checks[events[k].check]].resolved
    ensures var s, e := states[k], states[k].checks[events[k].check];
            var elapsed := s.now - s.entries[e].startTime;
            && elapsed >= POLL_INTERVAL_MS * s.entries[e].attempt
            && (s.entries[e].attempt >= MAX_POLL_ATTEMPTS ==> elapsed >= MAX_POLL_DURATION_MS)
            && GoesOn(s, states[k + 1], e)
  {
    RunKeepsAny(states, events, k);
    RunTimed(states, events, k);
    assert states[k + 1] == Step(states[k], events[k]);
    CheckEndsOrGoesOn(states[k], events[k].check, events[k].outcome);
  }
}
