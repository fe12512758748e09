/**
 Bank retries with nothing assumed of their callers: payments can be forced and
 cancelled while a status check is under way, and started again meanwhile. What
 every run keeps then, and exactly when a retry is resolved twice, polls on
 unlisted, or is taken off the list by another.
 */
module BankRetryOverlap {
  import opened Wrappers
  import opened BankRetry

  // ---------- What every run keeps ----------

  /** A status check of the entry is under way. */
  predicate Checking(s: State, e: nat)
    requires e < |s.entries|
  {
    var t := s.entries[e].timer;
    t.Some? && t.value in s.checks && s.checks[t.value] == e
  }

  predicate Armed(s: State, e: nat)
    requires e < |s.entries|
  {
    var t := s.entries[e].timer;
    t.Some? && t.value in s.timers && s.timers[t.value].entry == e
  }

  /** Unresolved without a call, or resolved with one or two, and no more than one while a check is under way. */
  ghost predicate CallsFit(s: State, e: nat)
    requires e < |s.entries|
  {
    var n := CallCount(s.calls, e);
    if s.entries[e].resolved then 1 <= n <= 2 && (Checking(s, e) ==> n == 1) else n == 0
  }

  /** Handles belong to the entry that holds them, timers to unresolved ones. */
  ghost predicate HandleFits(s: State, t: nat) {
    && (t in s.timers ==> && t < s.nextTimer && t !in s.checks && Holds(s, s.timers[t].entry, t)
                          && !s.entries[s.timers[t].entry].resolved)
    && (t in s.checks ==> t < s.nextTimer && Holds(s, s.checks[t], t))
  }

  predicate Holds(s: State, e: nat, t: nat) {
    e < |s.entries| && s.entries[e].timer == Some(t)
  }

  /** A listed payment's entry is unresolved and polling. */
  ghost predicate ListedFits(s: State, p: string) {
    p in s.active ==>
      && s.active[p] < |s.entries| && !s.entries[s.active[p]].resolved
      && (Armed(s, s.active[p]) || Checking(s, s.active[p]))
  }

  ghost predicate AnyInv(s: State) {
    && WellFormed(s) && CallsOk(s)
    && (forall e {:trigger CallsFit(s, e)} :: 0 <= e < |s.entries| ==> CallsFit(s, e))
    && (forall t {:trigger HandleFits(s, t)} :: HandleFits(s, t))
    && (forall p {:trigger ListedFits(s, p)} :: ListedFits(s, p))
  }

  /** The same but for `e`, which has no armed timer and is resolved at most once, and then not checking. */
  ghost predicate AnyInvBut(s: State, e: nat) {
    && WellFormed(s) && CallsOk(s) && e < |s.entries|
    && (forall f {:trigger CallsFit(s, f)} :: 0 <= f < |s.entries| && f != e ==> CallsFit(s, f))
    && (forall t {:trigger HandleFits(s, t)} :: HandleFits(s, t) && (t in s.timers ==> s.timers[t].entry != e))
    && (forall p {:trigger ListedFits(s, p)} :: (p in s.active && s.active[p] == e) || ListedFits(s, p))
    && CallCount(s.calls, e) == (if s.entries[e].resolved then 1 else 0)
    && (s.entries[e].resolved ==> !Checking(s, e))
  }

  lemma ResolveKeepsAny(s: State, e: nat, final: TransactionState)
    requires AnyInvBut(s, e)
    ensures AnyInv(Resolve(s, e, final))
  {
    var r := Resolve(s, e, final);
    forall f | 0 <= f < |r.entries| ensures CallsFit(r, f) {
      ResolveCalls(s, e, final, f);
    }
    forall t ensures HandleFits(r, t) {
      assert HandleFits(s, t);
    }
    forall p ensures ListedFits(r, p) {
      ResolveListed(s, e, final, p);
    }
  }

  lemma ResolveCalls(s: State, e: nat, final: TransactionState, f: nat)
    requires AnyInvBut(s, e) && f < |s.entries|
    ensures CallsFit(Resolve(s, e, final), f)
  {
    CallCountAppend(s.calls, Call(e, final), f);
    assert f != e ==> CallsFit(s, f);
  }

  lemma ResolveListed(s: State, e: nat, final: TransactionState, p: string)
    requires AnyInvBut(s, e)
    ensures ListedFits(Resolve(s, e, final), p)
  {
    if p in s.active && p != s.entries[e].paymentId {
      assert s.active[p] != e;
      assert ListedFits(s, p);
    }
  }

  lemma StartKeepsAny(s: State, p: string)
    requires AnyInv(s)
    ensures AnyInv(Start(s, p))
  {
    if p !in s.active {
      var e := |s.entries|;
      var r := s.(entries := s.entries + [Entry(p, s.now, 0, None, false)], active := s.active[p := e]);
      NoCalls(s, e);
      forall f | 0 <= f < |r.entries| && f != e ensures CallsFit(r, f) {
        assert CallsFit(s, f);
      }
      forall t ensures HandleFits(r, t) && (t in r.timers ==> r.timers[t].entry != e) {
        assert HandleFits(s, t);
      }
      forall q ensures (q in r.active && r.active[q] == e) || ListedFits(r, q) {
        assert ListedFits(s, q);
      }
      ScheduleKeepsAny(r, e);
    }
  }

  /** Scheduling the next poll of an entry that holds nothing. */
  lemma ScheduleKeepsAny(s: State, e: nat)
    requires AnyInvBut(s, e) && !s.entries[e].resolved && !Checking(s, e)
    ensures AnyInv(SchedulePoll(s, e))
  {
    var r := SchedulePoll(s, e);
    var entry := s.entries[e];
    if s.now - entry.startTime >= MAX_POLL_DURATION_MS || entry.attempt >= MAX_POLL_ATTEMPTS {
      ResolveKeepsAny(s, e, ManualReview);
    } else {
      assert HandleFits(s, s.nextTimer);
      forall f | 0 <= f < |r.entries| ensures CallsFit(r, f) {
        assert f != e ==> CallsFit(s, f);
      }
      forall t ensures HandleFits(r, t) {
        assert HandleFits(s, t);
        ChecksOfOthers(s, e, t);
      }
      forall p ensures ListedFits(r, p) {
        assert (p in s.active && s.active[p] == e) || ListedFits(s, p);
      }
    }
  }

  lemma ChecksOfOthers(s: State, e: nat, t: nat)
    requires HandleFits(s, t) && e < |s.entries| && !Checking(s, e)
    ensures t in s.checks ==> s.checks[t] != e
  {
  }

  lemma FireKeepsAny(s: State, t: nat)
    requires AnyInv(s) && Enabled(s, Fire(t))
    ensures AnyInv(Step(s, Fire(t)))
  {
    var r := Step(s, Fire(t));
    assert HandleFits(s, t);
    forall f | 0 <= f < |r.entries| ensures CallsFit(r, f) {
      assert CallsFit(s, f);
    }
    forall u ensures HandleFits(r, u) {
      assert HandleFits(s, u);
    }
    forall p ensures ListedFits(r, p) {
      assert ListedFits(s, p);
    }
  }

  /** A check that has returned: its entry holds nothing any more. */
  lemma ReturnedFits(s: State, c: nat)
    requires AnyInv(s) && c in s.checks
    ensures AnyInvBut(s.(checks := s.checks - {c}), s.checks[c])
    ensures !Checking(s.(checks := s.checks - {c}), s.checks[c])
    ensures s.entries[s.checks[c]].resolved ==> AnyInv(s.(checks := s.checks - {c}))
  {
    var e := s.checks[c];
    var r := s.(checks := s.checks - {c});
    assert HandleFits(s, c) && CallsFit(s, e);
    forall f | 0 <= f < |r.entries| && f != e ensures CallsFit(r, f) {
      assert CallsFit(s, f);
    }
    forall t ensures HandleFits(r, t) && (t in r.timers ==> r.timers[t].entry != e) {
      assert HandleFits(s, t);
    }
    forall p ensures (p in r.active && r.active[p] == e) || ListedFits(r, p) {
      assert ListedFits(s, p);
    }
    forall p | s.entries[e].resolved ensures ListedFits(r, p) {
      assert ListedFits(s, p);
    }
  }

  lemma ReturnKeepsAny(s: State, c: nat, outcome: Outcome)
    requires AnyInv(s) && c in s.checks
    ensures AnyInv(OnReturn(s, c, outcome))
  {
    ReturnedFits(s, c);
    var e, back := s.checks[c], s.(checks := s.checks - {c});
    if outcome == Succeeded {
      ResolveKeepsAny(back, e, Committed);
    } else if outcome == Failed {
      ResolveKeepsAny(back, e, RolledBack);
    } else if !s.entries[e].resolved {
      ScheduleKeepsAny(back, e);
    }
  }

  lemma ForceKeepsAny(s: State, p: string, final: TransactionState)
    requires AnyInv(s)
    ensures AnyInv(OnForce(s, p, final))
  {
    if p in s.active {
      var e := s.active[p];
      assert ListedFits(s, p) && CallsFit(s, e);
      var t := s.entries[e].timer.value;
      var r := s.(timers := s.timers - {t});
      forall f | 0 <= f < |r.entries| && f != e ensures CallsFit(r, f) {
        assert CallsFit(s, f);
      }
      forall u ensures HandleFits(r, u) && (u in r.timers ==> r.timers[u].entry != e) {
        assert HandleFits(s, u);
      }
      forall q ensures (q in r.active && r.active[q] == e) || ListedFits(r, q) {
        assert ListedFits(s, q);
        assert HandleFits(s, t);
      }
      ResolveKeepsAny(r, e, final);
    }
  }

  lemma CancelKeepsAny(s: State)
    requires AnyInv(s)
    ensures AnyInv(Step(s, CancelAll))
  {
    var r := Step(s, CancelAll);
    forall f | 0 <= f < |r.entries| ensures CallsFit(r, f) {
      assert CallsFit(s, f);
    }
    forall t ensures HandleFits(r, t) {
      assert HandleFits(s, t);
    }
    forall p ensures ListedFits(r, p) {
    }
  }

  /** Every step of every run. */
  lemma StepKeepsAny(s: State, ev: Event)
    requires AnyInv(s) && Enabled(s, ev)
    ensures AnyInv(Step(s, ev))
  {
    match ev
    case StartRetry(p) => StartKeepsAny(s, p);
    case Fire(t) => FireKeepsAny(s, t);
    case Return(c, outcome) => ReturnKeepsAny(s, c, outcome);
    case Force(p, final) => ForceKeepsAny(s, p, final);
    case CancelAll => CancelKeepsAny(s);
    case Tick(ms) =>
      forall e | 0 <= e < |s.entries| ensures CallsFit(Step(s, ev), e) {
        assert CallsFit(s, e);
      }
      forall t ensures HandleFits(Step(s, ev), t) {
        assert HandleFits(s, t);
      }
      forall p ensures ListedFits(Step(s, ev), p) {
        assert ListedFits(s, p);
      }
  }

  lemma {:induction false} RunKeepsAny(states: seq<State>, events: seq<Event>, k: nat)
    requires Run(states, events) && k < |states|
    ensures AnyInv(states[k])
  {
    if k > 0 {
      RunKeepsAny(states, events, k - 1);
      assert states[k] == Step(states[k - 1], events[k - 1]);
      StepKeepsAny(states[k - 1], events[k - 1]);
    }
  }

  // ---------- How often a retry is resolved ----------

  predicate Verdict(outcome: Outcome) {
    outcome == Succeeded || outcome == Failed
  }

  /** The entry is force-resolved while its check is under way. */
  predicate ForcesChecking(s: State, ev: Event, e: nat) {
    && ev.Force? && ev.paymentId in s.active && s.active[ev.paymentId] == e
    && e < |s.entries| && Checking(s, e)
  }

  /** A check of the entry returns. */
  predicate ReturnsFor(s: State, ev: Event, e: nat) {
    ev.Return? && ev.check in s.checks && s.checks[ev.check] == e
  }

  predicate VerdictFor(s: State, ev: Event, e: nat) {
    ReturnsFor(s, ev, e) && Verdict(ev.outcome)
  }

  /** Whether an entry was forced while checking, and how that check ended. */
  datatype Chain = Untouched | Forced | Over(twice: bool)

  function Next(s: State, ev: Event, e: nat, h: Chain): Chain {
    match h
    case Untouched => if ForcesChecking(s, ev, e) then Forced else Untouched
    case Forced => if ReturnsFor(s, ev, e) then Over(Verdict(ev.outcome)) else Forced
    case Over(_) => h
  }

  function History(states: seq<State>, events: seq<Event>, e: nat, k: nat): Chain
    requires |states| == |events| + 1 && k <= |events|
  {
    if k == 0 then Untouched else Next(states[k - 1], events[k - 1], e, History(states, events, e, k - 1))
  }

  ghost predicate HistoryFits(s: State, e: nat, h: Chain)
    requires e < |s.entries|
  {
    var n, resolved := CallCount(s.calls, e), s.entries[e].resolved;
    match h
    case Untouched => n == (if resolved then 1 else 0) && (resolved ==> !Checking(s, e))
    case Forced => n == 1 && resolved && Checking(s, e)
    case Over(twice) => n == (if twice then 2 else 1) && resolved && !Checking(s, e)
  }

  lemma ReturnHistory(s: State, c: nat, outcome: Outcome, e: nat, h: Chain)
    requires AnyInv(s) && c in s.checks && e < |s.entries| && HistoryFits(s, e, h)
    ensures e < |OnReturn(s, c, outcome).entries|
    ensures HistoryFits(OnReturn(s, c, outcome), e, Next(s, Return(c, outcome), e, h))
  {
    var d := s.checks[c];
    assert HandleFits(s, c);
    CallCountAppend(s.calls, Call(d, Committed), e);
    CallCountAppend(s.calls, Call(d, RolledBack), e);
    CallCountAppend(s.calls, Call(d, ManualReview), e);
    assert HandleFits(s, s.nextTimer);
  }

  lemma StartHistory(s: State, p: string, e: nat, h: Chain)
    requires AnyInv(s) && e < |s.entries| && HistoryFits(s, e, h)
    ensures e < |Start(s, p).entries| && HistoryFits(Start(s, p), e, h)
  {
    CallCountAppend(s.calls, Call(|s.entries|, ManualReview), e);
  }

  lemma ForceHistory(s: State, p: string, final: TransactionState, e: nat, h: Chain)
    requires AnyInv(s) && e < |s.entries| && HistoryFits(s, e, h)
    ensures e < |OnForce(s, p, final).entries|
    ensures HistoryFits(OnForce(s, p, final), e, Next(s, Force(p, final), e, h))
  {
    if p in s.active {
      assert ListedFits(s, p);
      CallCountAppend(s.calls, Call(s.active[p], final), e);
    }
  }

  lemma StepHistory(s: State, ev: Event, e: nat, h: Chain)
    requires AnyInv(s) && Enabled(s, ev) && e < |s.entries| && HistoryFits(s, e, h)
    ensures e < |Step(s, ev).entries| && HistoryFits(Step(s, ev), e, Next(s, ev, e, h))
  {
    match ev
    case StartRetry(p) => StartHistory(s, p, e, h);
    case Fire(t) => assert HandleFits(s, t);
    case Return(c, outcome) => ReturnHistory(s, c, outcome, e, h);
    case Force(p, final) => ForceHistory(s, p, final, e, h);
    case CancelAll =>
    case Tick(_) =>
  }

  /** An entry that does not exist yet has no history, and starts with none. */
  lemma NewHistory(s: State, ev: Event, e: nat)
    requires AnyInv(s) && Enabled(s, ev) && e >= |s.entries|
    ensures Next(s, ev, e, Untouched) == Untouched
    ensures e < |Step(s, ev).entries| ==> HistoryFits(Step(s, ev), e, Untouched)
  {
    if e < |Step(s, ev).entries| {
      StepKeepsAny(s, ev);
      assert CallsFit(Step(s, ev), e);
    }
  }

  /** The history of an entry, which is none before it exists. */
  ghost predicate HistoryAt(s: State, e: nat, h: Chain) {
    if e < |s.entries| then HistoryFits(s, e, h) else h == Untouched
  }

  lemma StepHistoryAt(s: State, ev: Event, e: nat, h: Chain)
    requires AnyInv(s) && Enabled(s, ev) && HistoryAt(s, e, h)
    ensures HistoryAt(Step(s, ev), e, Next(s, ev, e, h))
  {
    if e < |s.entries| {
      StepHistory(s, ev, e, h);
    } else {
      NewHistory(s, ev, e);
    }
  }

  lemma {:induction false} RunHistory(states: seq<State>, events: seq<Event>, e: nat, k: nat)
    requires Run(states, events) && k < |states|
    ensures HistoryAt(states[k], e, History(states, events, e, k))
  {
    if k > 0 {
      RunHistory(states, events, e, k - 1);
      RunKeepsAny(states, events, k - 1);
      assert states[k] == Step(states[k - 1], events[k - 1]);
      StepHistoryAt(states[k - 1], events[k - 1], e, History(states, events, e, k - 1));
    }
  }

  /** The entry is force-resolved by event `i` while its check is under way, and the check's verdict is event `j`. */
  ghost predicate ForcedThenVerdict(states: seq<State>, events: seq<Event>, e: nat, i: nat, j: nat) {
    && i < j < |events| < |states|
    && ForcesChecking(states[i], events[i], e) && VerdictFor(states[j], events[j], e)
  }

  lemma {:induction false} UntouchedIff(states: seq<State>, events: seq<Event>, e: nat, k: nat)
    requires |states| == |events| + 1 && k <= |events|
    ensures History(states, events, e, k) == Untouched
        <==> forall i :: 0 <= i < k ==> !ForcesChecking(states[i], events[i], e)
  {
    if k > 0 {
      UntouchedIff(states, events, e, k - 1);
    }
  }

  lemma {:induction false} OverStays(states: seq<State>, events: seq<Event>, e: nat, j: nat, k: nat)
    requires |states| == |events| + 1 && j <= k <= |events| && History(states, events, e, j).Over?
    ensures History(states, events, e, k) == History(states, events, e, j)
    decreases k
  {
    if j < k {
      OverStays(states, events, e, j, k - 1);
    }
  }

  lemma {:induction false} OverComesFrom(states: seq<State>, events: seq<Event>, e: nat, k: nat)
    requires |states| == |events| + 1 && k <= |events| && History(states, events, e, k) == Over(true)
    ensures exists i: nat, j: nat :: j < k && ForcedThenVerdict(states, events, e, i, j)
  {
    if History(states, events, e, k - 1) == Over(true) {
      OverComesFrom(states, events, e, k - 1);
    } else {
      UntouchedIff(states, events, e, k - 1);
      var i :| 0 <= i < k - 1 && ForcesChecking(states[i], events[i], e);
      assert ForcedThenVerdict(states, events, e, i, k - 1);
    }
  }

  lemma VerdictEnds(states: seq<State>, events: seq<Event>, e: nat, i: nat, j: nat)
    requires Run(states, events) && ForcedThenVerdict(states, events, e, i, j)
    ensures History(states, events, e, j + 1) == Over(true)
  {
    UntouchedIff(states, events, e, j);
    RunHistory(states, events, e, j);
    RunKeepsAny(states, events, j);
    assert HandleFits(states[j], events[j].check);
  }

  /**
   Over every run, `onResolved` is called for an entry once when it is resolved,
   and a second time exactly when it was force-resolved while its check was
   under way and that check then came back with a verdict.
   */
  lemma ResolvedTwiceIff(states: seq<State>, events: seq<Event>, k: nat, e: nat)
    requires Run(states, events) && k < |states| && e < |states[k].entries|
    ensures var n := CallCount(states[k].calls, e);
            && (n == 0 <==> !states[k].entries[e].resolved) && n <= 2
            && (n == 2 <==> exists i: nat, j: nat :: j < k && ForcedThenVerdict(states, events, e, i, j))
  {
    RunHistory(states, events, e, k);
    if History(states, events, e, k) == Over(true) {
      OverComesFrom(states, events, e, k);
    }
    if i: nat, j: nat :| j < k && ForcedThenVerdict(states, events, e, i, j) {
      VerdictEnds(states, events, e, i, j);
      OverStays(states, events, e, j + 1, k);
    }
  }

  /** Forced while its check is under way, an entry is resolved a second time if and only if the check has a verdict. */
  lemma ForcedDuringCheck(s: State, c: nat, final: TransactionState, outcome: Outcome)
    requires AnyInv(s) && c in s.checks && Live(s, s.checks[c])
    ensures var e := s.checks[c];
            var forced := Step(s, Force(s.entries[e].paymentId, final));
            && Enabled(forced, Return(c, outcome))
            && CallCount(Step(forced, Return(c, outcome)).calls, e) == (if Verdict(outcome) then 2 else 1)
  {
    var e := s.checks[c];
    var p := s.entries[e].paymentId;
    assert HandleFits(s, c) && ListedFits(s, p) && CallsFit(s, e);
    ForceHistory(s, p, final, e, Untouched);
    ForceKeepsAny(s, p, final);
    ReturnHistory(OnForce(s, p, final), c, outcome, e, Forced);
  }

  // ---------- When a retry is polled though it is not listed ----------

  /** The entry is not resolved, and a timer or a check goes on for it. */
  predicate Polled(s: State, e: nat)
    requires e < |s.entries|
  {
    !s.entries[e].resolved && (Armed(s, e) || Checking(s, e))
  }

  /** The check's return resolves its entry. */
  predicate EndsNow(s: State, c: nat, outcome: Outcome)
    requires c in s.checks && s.checks[c] < |s.entries|
  {
    var entry := s.entries[s.checks[c]];
    Verdict(outcome) || (!entry.resolved &&
      (s.now - entry.startTime >= MAX_POLL_DURATION_MS || entry.attempt >= MAX_POLL_ATTEMPTS))
  }

  /**
   The event takes a polled entry off the list: a cancel while it is checking,
   or the end of another retry of its payment.
   */
  predicate Unlists(s: State, ev: Event, e: nat)
    requires WellFormed(s) && Enabled(s, ev) && e < |s.entries|
  {
    || (ev.CancelAll? && Checking(s, e))
    || (ev.Return? && s.checks[ev.check] != e
        && s.entries[s.checks[ev.check]].paymentId == s.entries[e].paymentId && EndsNow(s, ev.check, ev.outcome))
  }

  /** In every state of every run, exactly those events leave a listed entry polling unlisted. */
  lemma UnlistedIff(s: State, ev: Event, e: nat)
    requires AnyInv(s) && Enabled(s, ev) && e < |s.entries| && Live(s, e)
    ensures var after := Step(s, ev);
            && e < |after.entries|
            && (!Live(after, e) && Polled(after, e) <==> Unlists(s, ev, e))
  {
    assert ListedFits(s, s.entries[e].paymentId) && CallsFit(s, e);
    match ev
    case StartRetry(_) =>
    case Fire(t) => assert HandleFits(s, t);
    case Return(c, outcome) => ReturnUnlists(s, c, outcome, e);
    case Force(p, final) =>
      ForceKeepsAny(s, p, final);
      ForceUnlistsNone(s, p, final, e);
    case CancelAll => CancelUnlists(s, e);
    case Tick(_) =>
  }

  lemma ReturnUnlists(s: State, c: nat, outcome: Outcome, e: nat)
    requires AnyInv(s) && c in s.checks && e < |s.entries| && Live(s, e)
    ensures var after := OnReturn(s, c, outcome);
            && e < |after.entries|
            && (!Live(after, e) && Polled(after, e) <==> Unlists(s, Return(c, outcome), e))
  {
    assert HandleFits(s, c) && ListedFits(s, s.entries[e].paymentId);
    assert HandleFits(s, s.nextTimer);
    assert HandleFits(s, s.entries[e].timer.value);
  }

  lemma ForceUnlistsNone(s: State, p: string, final: TransactionState, e: nat)
    requires AnyInv(s) && e < |s.entries| && Live(s, e)
    ensures var after := OnForce(s, p, final);
            e < |after.entries| && (Live(after, e) || after.entries[e].resolved)
  {
  }

  lemma ReturnPolledBefore(s: State, c: nat, outcome: Outcome, e: nat)
    requires AnyInv(s) && c in s.checks && e < |s.entries|
    ensures var after := OnReturn(s, c, outcome);
            && e < |after.entries|
            && (Polled(after, e) ==> Polled(s, e)) && (Live(after, e) ==> Live(s, e))
  {
    assert HandleFits(s, c) && HandleFits(s, s.nextTimer);
  }

  /** No event starts polling an entry again, or lists one again that is not listed. */
  lemma PolledBefore(s: State, ev: Event, e: nat)
    requires AnyInv(s) && Enabled(s, ev) && e < |s.entries|
    ensures var after := Step(s, ev);
            && e < |after.entries|
            && (Polled(after, e) ==> Polled(s, e)) && (Live(after, e) ==> Live(s, e))
  {
    match ev
    case StartRetry(_) => assert HandleFits(s, s.nextTimer);
    case Fire(t) => assert HandleFits(s, t);
    case Return(c, outcome) => ReturnPolledBefore(s, c, outcome, e);
    case Force(_, _) =>
    case CancelAll =>
    case Tick(_) =>
  }

  /** A new entry is listed. */
  lemma NewIsLive(s: State, ev: Event, e: nat)
    requires AnyInv(s) && Enabled(s, ev) && |s.entries| <= e < |Step(s, ev).entries|
    ensures Live(Step(s, ev), e)
  {
  }

  /** Event `i` takes the listed entry off the list while it is polled. */
  ghost predicate UnlistedBy(states: seq<State>, events: seq<Event>, e: nat, i: nat) {
    && i < |events| < |states| && WellFormed(states[i]) && Enabled(states[i], events[i])
    && e < |states[i].entries| && Live(states[i], e) && Unlists(states[i], events[i], e)
  }

  lemma {:induction false} StaysUnlisted(states: seq<State>, events: seq<Event>, e: nat, i: nat, k: nat)
    requires Run(states, events) && i <= k < |states|
    requires e < |states[i].entries| && !Live(states[i], e)
    ensures e < |states[k].entries| && !Live(states[k], e)
    decreases k
  {
    if i < k {
      StaysUnlisted(states, events, e, i, k - 1);
      RunKeepsAny(states, events, k - 1);
      assert states[k] == Step(states[k - 1], events[k - 1]);
      PolledBefore(states[k - 1], events[k - 1], e);
    }
  }

  lemma {:induction false} UnlistedComesFrom(states: seq<State>, events: seq<Event>, e: nat, k: nat)
    requires Run(states, events) && k < |states| && e < |states[k].entries|
    requires Polled(states[k], e) && !Live(states[k], e)
    ensures exists i: nat :: i < k && UnlistedBy(states, events, e, i)
  {
    RunKeepsAny(states, events, k - 1);
    var s, ev := states[k - 1], events[k - 1];
    assert states[k] == Step(s, ev);
    if e >= |s.entries| {
      NewIsLive(s, ev, e);
      assert false;
    }
    PolledBefore(s, ev, e);
    if Live(s, e) {
      UnlistedIff(s, ev, e);
      assert UnlistedBy(states, events, e, k - 1);
    } else {
      UnlistedComesFrom(states, events, e, k - 1);
    }
  }

  /**
   Over every run: a listed payment's entry is polled; and a polled entry is
   not listed exactly when it has been unlisted by a cancel during its check or
   by the end of another retry of its payment.
   */
  lemma ListedIff(states: seq<State>, events: seq<Event>, e: nat, k: nat)
    requires Run(states, events) && k < |states| && e < |states[k].entries|
    ensures Live(states[k], e) ==> Polled(states[k], e)
    ensures Polled(states[k], e) ==>
              (!Live(states[k], e) <==> exists i: nat :: i < k && UnlistedBy(states, events, e, i))
  {
    RunKeepsAny(states, events, k);
    assert ListedFits(states[k], states[k].entries[e].paymentId);
    if i: nat :| i < k && UnlistedBy(states, events, e, i) {
      RunKeepsAny(states, events, i);
      assert states[i + 1] == Step(states[i], events[i]);
      UnlistedNow(states[i], events[i], e);
      StaysUnlisted(states, events, e, i + 1, k);
    }
    if Polled(states[k], e) && !Live(states[k], e) {
      UnlistedComesFrom(states, events, e, k);
    }
  }

  lemma UnlistedNow(s: State, ev: Event, e: nat)
    requires AnyInv(s) && Enabled(s, ev) && e < |s.entries| && Live(s, e) && Unlists(s, ev, e)
    ensures e < |Step(s, ev).entries| && !Live(Step(s, ev), e)
  {
    UnlistedIff(s, ev, e);
  }

  /**
   Cancelled while its check is under way, an entry goes on with a new timer if
   and only if the check does not resolve it.
   */
  lemma CancelledDuringCheck(s: State, c: nat, outcome: Outcome)
    requires AnyInv(s) && c in s.checks && Live(s, s.checks[c])
    ensures var e, cancelled := s.checks[c], Step(s, CancelAll);
            && Enabled(cancelled, Return(c, outcome))
            && var after := Step(cancelled, Return(c, outcome));
               && after.active == map[]
               && (Armed(after, e) <==> !after.entries[e].resolved)
               && (Armed(after, e) <==> !EndsNow(s, c, outcome))
  {
    var e := s.checks[c];
    assert HandleFits(s, c) && ListedFits(s, s.entries[e].paymentId);
  }

  /**
   A check left over from a forced retry takes the payment's new retry off the
   list if and only if it has a verdict, and leaves it polling all the same.
   */
  lemma LeftoverCheck(s: State, c: nat, outcome: Outcome)
    requires AnyInv(s) && c in s.checks && s.entries[s.checks[c]].resolved
    requires s.entries[s.checks[c]].paymentId in s.active
    ensures var p := s.entries[s.checks[c]].paymentId;
            var after := Step(s, Return(c, outcome));
            && (p in after.active <==> !Verdict(outcome))
            && s.active[p] < |after.entries| && after.entries[s.active[p]] == s.entries[s.active[p]]
            && Polled(after, s.active[p])
  {
    var p := s.entries[s.checks[c]].paymentId;
    assert HandleFits(s, c) && ListedFits(s, p);
  }

  lemma CancelUnlists(s: State, e: nat)
    requires AnyInv(s) && e < |s.entries| && Live(s, e)
    ensures var after := Step(s, CancelAll);
            e < |after.entries| && !Live(after, e) && (Polled(after, e) <==> Checking(s, e))
  {
    var p := s.entries[e].paymentId;
    assert ListedFits(s, p);
    assert HandleFits(s, s.entries[e].timer.value);
    assert p in s.active.Keys && s.entries[s.active[p]].timer.value in Handles(s.entries, s.active, s.active.Keys);
  }

  // ---------- Runs that show it ----------

  /** Entry 0 of payment "p" with its first check under way. */
  const CHECKING := State([Entry("p", 0, 1, Some(0), false)], map["p" := 0], map[], map[0 := 0], 1,
                          POLL_INTERVAL_MS, [])

  lemma CheckingIsReached()
    ensures CHECKING == Step(Step(Step(INITIAL, StartRetry("p")), Tick(60_000)), Fire(0))
  {
    var started := Step(INITIAL, StartRetry("p"));
    assert started == State([Entry("p", 0, 1, Some(0), false)], map["p" := 0],
                            map[0 := Timer(0, POLL_INTERVAL_MS)], map[], 1, 0, []);
  }

  /** Forced while its check is running, a payment is resolved twice when the check then succeeds. */
  lemma ForcedDuringCheckResolvesTwice()
    ensures var forced := Step(CHECKING, Force("p", ManualReview));
            && Enabled(forced, Return(0, Succeeded))
            && Step(forced, Return(0, Succeeded)).calls == [Call(0, ManualReview), Call(0, Committed)]
  {
    var forced := Step(CHECKING, Force("p", ManualReview));
    assert forced.calls == [Call(0, ManualReview)] && forced.checks == map[0 := 0];
  }

  /** Cancelled while its check is running, a payment is polled again though it is no longer listed. */
  lemma CancelledDuringCheckLivesOn()
    ensures var cancelled := Step(CHECKING, CancelAll);
            && Enabled(cancelled, Return(0, StillPending))
            && var after := Step(cancelled, Return(0, StillPending));
               after.active == map[] && 1 in after.timers && after.timers[1].entry == 0
  {
    var cancelled := Step(CHECKING, CancelAll);
    assert cancelled.checks == map[0 := 0] && cancelled.active == map[];
  }

  /** A check left over from a forced retry takes a newly started retry off the list. */
  lemma LeftoverCheckDropsNewRetry()
    ensures var again := Step(Step(CHECKING, Force("p", ManualReview)), StartRetry("p"));
            && Enabled(again, Return(0, Failed))
            && var after := Step(again, Return(0, Failed));
               && after.active == map[] && |after.entries| == 2 && !after.entries[1].resolved
               && 1 in after.timers && after.timers[1].entry == 1
  {
    var forced := Step(CHECKING, Force("p", ManualReview));
    assert forced.checks == map[0 := 0] && forced.active == map[];
    var again := Step(forced, StartRetry("p"));
    assert again.active == map["p" := 1] && again.checks == map[0 := 0] && |again.entries| == 2;
  }
}
