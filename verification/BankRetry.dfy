/**
 The bank retry state machine of packages/commerce: polls a payment's status
 every 60 seconds for up to 24 hours. Calls from outside, timers firing and
 status checks returning interleave freely; each is one event.
 */
module BankRetry {
  import opened Wrappers

  const POLL_INTERVAL_MS: int := 60_000
  const MAX_POLL_DURATION_MS: int := 24 * 60 * 60 * 1000
  const MAX_POLL_ATTEMPTS: int := (MAX_POLL_DURATION_MS + POLL_INTERVAL_MS - 1) / POLL_INTERVAL_MS

  datatype TransactionState = Pending | Committed | RolledBack | ManualReview | PendingBankReconciliation

  /** How an awaited status check ends; `Threw` also when the poll callback throws. */
  datatype Outcome = Succeeded | Failed | StillPending | Threw

  datatype Entry = Entry(paymentId: string, startTime: int, attempt: nat, timer: Option<nat>, resolved: bool)

  datatype Timer = Timer(entry: nat, due: int)

  /** One call of `onResolved` for an entry. */
  datatype Call = Call(entry: nat, state: TransactionState)

  /**
   Entries are named by their position; `timers` are armed, `checks` are timer
   callbacks awaiting a status, both under the handle `setTimeout` returned.
   */
  datatype State = State(entries: seq<Entry>, active: map<string, nat>, timers: map<nat, Timer>,
                         checks: map<nat, nat>, nextTimer: nat, now: int, calls: seq<Call>)

  const INITIAL := State([], map[], map[], map[], 0, 0, [])

  /** Every entry a payment, timer or check refers to exists. */
  ghost predicate WellFormed(s: State) {
    && (forall p :: p in s.active ==> s.active[p] < |s.entries| && s.entries[s.active[p]].paymentId == p)
    && (forall t :: t in s.timers ==> s.timers[t].entry < |s.entries|)
    && (forall t :: t in s.checks ==> s.checks[t] < |s.entries|)
  }

  // ---------- The steps ----------

  /** Marks the entry resolved, forgets its payment and calls `onResolved`. */
  function Resolve(s: State, e: nat, final: TransactionState): State
    requires e < |s.entries|
  {
    s.(entries := s.entries[e := s.entries[e].(resolved := true)],
       active := s.active - {s.entries[e].paymentId},
       calls := s.calls + [Call(e, final)])
  }

  function SchedulePoll(s: State, e: nat): State
    requires e < |s.entries|
  {
    var entry := s.entries[e];
    if entry.resolved then s
    else if s.now - entry.startTime >= MAX_POLL_DURATION_MS || entry.attempt >= MAX_POLL_ATTEMPTS then
      Resolve(s, e, ManualReview)
    else
      s.(entries := s.entries[e := entry.(attempt := entry.attempt + 1, timer := Some(s.nextTimer))],
         timers := s.timers[s.nextTimer := Timer(e, s.now + POLL_INTERVAL_MS)],
         nextTimer := s.nextTimer + 1)
  }

  function Start(s: State, paymentId: string): State {
    if paymentId in s.active then s
    else
      var e := |s.entries|;
      SchedulePoll(s.(entries := s.entries + [Entry(paymentId, s.now, 0, None, false)],
                     active := s.active[paymentId := e]), e)
  }

  /** The timer handles held by the entries of the given payments. */
  function Handles(entries: seq<Entry>, active: map<string, nat>, payments: set<string>): set<nat>
    requires forall p :: p in payments ==> p in active && active[p] < |entries|
  {
    set p | p in payments && entries[active[p]].timer.Some? :: entries[active[p]].timer.value
  }

  lemma HandlesGrow(entries: seq<Entry>, active: map<string, nat>, payments: set<string>, p: string)
    requires forall q :: q in payments + {p} ==> q in active && active[q] < |entries|
    ensures var handle := entries[active[p]].timer;
            && Handles(entries, active, payments + {p})
               == Handles(entries, active, payments) + if handle.Some? then {handle.value} else {}
  {
  }

  function OnReturn(s: State, c: nat, outcome: Outcome): (r: State)
    requires WellFormed(s) && c in s.checks
    ensures WellFormed(r)
  {
    var e := s.checks[c];
    var back := s.(checks := s.checks - {c});
    match outcome
    case Succeeded => Resolve(back, e, Committed)
    case Failed => Resolve(back, e, RolledBack)
    case StillPending => SchedulePoll(back, e)
    case Threw => SchedulePoll(back, e)
  }

  function OnForce(s: State, p: string, final: TransactionState): (r: State)
    requires WellFormed(s)
    ensures WellFormed(r)
  {
    if p !in s.active then s
    else
      var e := s.active[p];
      Resolve(if s.entries[e].timer.Some? then s.(timers := s.timers - {s.entries[e].timer.value}) else s, e, final)
  }

  datatype Event =
    | StartRetry(paymentId: string)
    | Fire(timer: nat)
    | Return(check: nat, outcome: Outcome)
    | Force(paymentId: string, final: TransactionState)
    | CancelAll
    | Tick(ms: nat)

  /** May the event happen now? Timers never fire early. */
  predicate Enabled(s: State, ev: Event) {
    match ev
    case Fire(t) => t in s.timers && s.timers[t].due <= s.now
    case Return(c, _) => c in s.checks
    case _ => true
  }

  function Step(s: State, ev: Event): (r: State)
    requires WellFormed(s) && Enabled(s, ev)
    ensures WellFormed(r)
  {
    match ev
    case StartRetry(p) => Start(s, p)
    case Fire(t) =>
      var fired := s.(timers := s.timers - {t});
      if s.entries[s.timers[t].entry].resolved then fired else fired.(checks := s.checks[t := s.timers[t].entry])
    case Return(c, outcome) => OnReturn(s, c, outcome)
    case Force(p, final) => OnForce(s, p, final)
    case CancelAll => s.(timers := s.timers - Handles(s.entries, s.active, s.active.Keys), active := map[])
    case Tick(ms) => s.(now := s.now + ms)
  }

  // ---------- The module object ----------

  /** `clearTimeout` for every active entry. */
  method ClearTimers(entries: seq<Entry>, active: map<string, nat>, armed: map<nat, Timer>)
    returns (left: map<nat, Timer>)
    requires forall p :: p in active ==> active[p] < |entries|
    ensures left == armed - Handles(entries, active, active.Keys)
  {
    left := armed;
    var rest := active.Keys;
    ghost var cleared: set<string> := {};
    ghost var handles: set<nat> := {};
    while rest != {}
      invariant cleared + rest == active.Keys && cleared !! rest
      invariant handles == Handles(entries, active, cleared) && left == armed - handles
      decreases rest
    {
      var p :| p in rest;
      HandlesGrow(entries, active, cleared, p);
      rest, cleared := rest - {p}, cleared + {p};
      var handle := entries[active[p]].timer;
      if handle.Some? {
        left := left - {handle.value};
        handles := handles + {handle.value};
      }
    }
    assert cleared == active.Keys;
  }

  class BankRetry {
    var entries: seq<Entry>
    var activeRetries: map<string, nat>
    var timers: map<nat, Timer>
    var checks: map<nat, nat>
    var nextTimer: nat
    var now: int
    ghost var calls: seq<Call>

    ghost function Contents(): State
      reads this
    {
      State(entries, activeRetries, timers, checks, nextTimer, now, calls)
    }

    constructor ()
      ensures Contents() == INITIAL
    {
      entries, activeRetries, timers, checks := [], map[], map[], map[];
      nextTimer, now, calls := 0, 0, [];
    }

    method CallOnResolved(e: nat, final: TransactionState)
      modifies this
      ensures Contents() == old(Contents()).(calls := old(calls) + [Call(e, final)])
    {
      calls := calls + [Call(e, final)];
    }

    method StartBankRetry(paymentId: string)
      requires WellFormed(Contents())
      modifies this
      ensures Contents() == Step(old(Contents()), StartRetry(paymentId))
    {
      if paymentId in activeRetries {
        return;
      }
      var e := |entries|;
      entries := entries + [Entry(paymentId, now, 0, None, false)];
      activeRetries := activeRetries[paymentId := e];
      Schedule(e);
    }

    method Schedule(e: nat)
      requires e < |entries|
      modifies this
      ensures Contents() == SchedulePoll(old(Contents()), e)
    {
      if entries[e].resolved {
        return;
      }
      var elapsed := now - entries[e].startTime;
      if elapsed >= MAX_POLL_DURATION_MS || entries[e].attempt >= MAX_POLL_ATTEMPTS {
        entries := entries[e := entries[e].(resolved := true)];
        activeRetries := activeRetries - {entries[e].paymentId};
        CallOnResolved(e, ManualReview);
        return;
      }
      entries := entries[e := entries[e].(attempt := entries[e].attempt + 1)];
      timers := timers[nextTimer := Timer(e, now + POLL_INTERVAL_MS)];
      entries := entries[e := entries[e].(timer := Some(nextTimer))];
      nextTimer := nextTimer + 1;
    }

    /** The timer callback up to its `await`. */
    method TimerFires(t: nat)
      requires WellFormed(Contents()) && Enabled(Contents(), Fire(t))
      modifies this
      ensures Contents() == Step(old(Contents()), Fire(t))
    {
      var e := timers[t].entry;
      timers := timers - {t};
      if entries[e].resolved {
        return;
      }
      checks := checks[t := e];
    }

    /** The timer callback after its `await`; it does not look at `resolved` again. */
    method CheckReturns(c: nat, outcome: Outcome)
      requires WellFormed(Contents()) && Enabled(Contents(), Return(c, outcome))
      modifies this
      ensures Contents() == Step(old(Contents()), Return(c, outcome))
    {
      var e := checks[c];
      checks := checks - {c};
      match outcome {
        case Succeeded =>
          entries := entries[e := entries[e].(resolved := true)];
          activeRetries := activeRetries - {entries[e].paymentId};
          CallOnResolved(e, Committed);
        case Failed =>
          entries := entries[e := entries[e].(resolved := true)];
          activeRetries := activeRetries - {entries[e].paymentId};
          CallOnResolved(e, RolledBack);
        case StillPending =>
          Schedule(e);
        case Threw =>
          Schedule(e);
      }
    }

    method ForceResolve(paymentId: string, final: TransactionState)
      requires WellFormed(Contents())
      modifies this
      ensures Contents() == Step(old(Contents()), Force(paymentId, final))
    {
      if paymentId !in activeRetries {
        return;
      }
      var e := activeRetries[paymentId];
      if entries[e].timer.Some? {
        timers := timers - {entries[e].timer.value};
      }
      entries := entries[e := entries[e].(resolved := true)];
      activeRetries := activeRetries - {paymentId};
      CallOnResolved(e, final);
    }

    method CancelAllRetries()
      requires WellFormed(Contents())
      modifies this
      ensures Contents() == Step(old(Contents()), CancelAll)
    {
      timers := ClearTimers(entries, activeRetries, timers);
      activeRetries := map[];
    }
  }

  // ---------- What every well-behaved run keeps ----------

  function CallCount(calls: seq<Call>, e: nat): nat {
    if calls == [] then 0
    else CallCount(calls[..|calls| - 1], e) + if calls[|calls| - 1].entry == e then 1 else 0
  }

  lemma CallCountAppend(calls: seq<Call>, c: Call, e: nat)
    ensures CallCount(calls + [c], e) == CallCount(calls, e) + if c.entry == e then 1 else 0
  {
    assert (calls + [c])[..|calls|] == calls;
  }

  /** Is `e` the entry its payment is being retried with? */
  predicate Live(s: State, e: nat)
    requires e < |s.entries|
  {
    s.entries[e].paymentId in s.active && s.active[s.entries[e].paymentId] == e
  }

  /** `t` is an armed timer of the entry, or its check is running; never both. */
  predicate Polling(s: State, e: nat, t: nat)
    requires e < |s.entries|
  {
    var earliest := s.entries[e].startTime + POLL_INTERVAL_MS * s.entries[e].attempt;
    if t in s.timers then t !in s.checks && s.timers[t].entry == e && s.timers[t].due >= earliest
    else t in s.checks && s.checks[t] == e && s.now >= earliest
  }

  ghost predicate EntryOk(s: State, e: nat)
    requires e < |s.entries|
  {
    var entry := s.entries[e];
    && CallCount(s.calls, e) == (if entry.resolved then 1 else 0)
    && entry.startTime <= s.now && entry.attempt <= MAX_POLL_ATTEMPTS
    && (Live(s, e) ==> !entry.resolved && entry.timer.Some? && Polling(s, e, entry.timer.value))
  }

  /** Timers and checks belong to live entries, which hold them. */
  ghost predicate HandleOk(s: State, t: nat) {
    && (t in s.timers ==> HeldBy(s, t, s.timers[t].entry))
    && (t in s.checks ==> HeldBy(s, t, s.checks[t]))
  }

  ghost predicate HeldBy(s: State, t: nat, e: nat) {
    t < s.nextTimer && e < |s.entries| && Live(s, e) && s.entries[e].timer == Some(t)
  }

  ghost predicate CallsOk(s: State) {
    forall i :: 0 <= i < |s.calls| ==> s.calls[i].entry < |s.entries|
  }

  ghost predicate Inv(s: State) {
    && WellFormed(s) && CallsOk(s)
    && (forall e {:trigger EntryOk(s, e)} :: 0 <= e < |s.entries| ==> EntryOk(s, e))
    && (forall t {:trigger HandleOk(s, t)} :: HandleOk(s, t))
  }

  /** No outside resolution or cancellation while the payment's status check is running. */
  ghost predicate Considerate(s: State, ev: Event) {
    match ev
    case Force(p, _) => p in s.active ==> forall c :: c in s.checks ==> s.checks[c] != s.active[p]
    case CancelAll => forall c :: c in s.checks ==> s.checks[c] < |s.entries| && !Live(s, s.checks[c])
    case _ => true
  }

  /** The invariant for all but the live, unresolved entry `e`, which holds no handle. */
  ghost predicate InvWithoutHandle(s: State, e: nat) {
    && WellFormed(s) && CallsOk(s) && e < |s.entries|
    && Live(s, e) && !s.entries[e].resolved && CallCount(s.calls, e) == 0
    && s.entries[e].startTime <= s.now && s.entries[e].attempt <= MAX_POLL_ATTEMPTS
    && (forall f {:trigger EntryOk(s, f)} :: 0 <= f < |s.entries| && f != e ==> EntryOk(s, f))
    && (forall t {:trigger HandleOk(s, t)} :: HandleOk(s, t))
    && (forall t :: t in s.timers ==> s.timers[t].entry != e)
    && (forall t :: t in s.checks ==> s.checks[t] != e)
  }

  /** The same, 60 seconds having passed for every poll. */
  ghost predicate InvBetweenPolls(s: State, e: nat) {
    InvWithoutHandle(s, e) && s.now >= s.entries[e].startTime + POLL_INTERVAL_MS * s.entries[e].attempt
  }

  /** Resolving an entry leaves the others and what they hold alone. */
  lemma ResolveOther(s: State, e: nat, final: TransactionState, f: nat)
    requires WellFormed(s) && e < |s.entries| && f < |s.entries| && f != e && EntryOk(s, f)
    ensures EntryOk(Resolve(s, e, final), f)
  {
    CallCountAppend(s.calls, Call(e, final), f);
    assert s.entries[f].paymentId in s.active - {s.entries[e].paymentId} ==> s.entries[f].paymentId in s.active;
  }

  lemma ResolveItself(s: State, e: nat, final: TransactionState)
    requires InvWithoutHandle(s, e)
    ensures EntryOk(Resolve(s, e, final), e)
  {
    CallCountAppend(s.calls, Call(e, final), e);
  }

  lemma ResolveEntry(s: State, e: nat, final: TransactionState, f: nat)
    requires InvWithoutHandle(s, e) && f < |s.entries|
    ensures EntryOk(Resolve(s, e, final), f)
  {
    if f == e {
      ResolveItself(s, e, final);
    } else {
      ResolveOther(s, e, final, f);
    }
  }

  lemma ResolveHandle(s: State, e: nat, final: TransactionState, t: nat)
    requires InvWithoutHandle(s, e)
    ensures HandleOk(Resolve(s, e, final), t)
  {
    assert HandleOk(s, t);
  }

  lemma ResolveWellFormed(s: State, e: nat, final: TransactionState)
    requires InvWithoutHandle(s, e)
    ensures WellFormed(Resolve(s, e, final)) && CallsOk(Resolve(s, e, final))
  {
  }

  lemma {:induction false} ResolveKeepsInv(s: State, e: nat, final: TransactionState)
    requires InvWithoutHandle(s, e)
    ensures Inv(Resolve(s, e, final))
  {
    var r := Resolve(s, e, final);
    ResolveWellFormed(s, e, final);
    forall f | 0 <= f < |r.entries| ensures EntryOk(r, f) {
      ResolveEntry(s, e, final, f);
    }
    forall t ensures HandleOk(r, t) {
      ResolveHandle(s, e, final, t);
    }
  }

  lemma ScheduleKeepsInv(s: State, e: nat)
    requires InvBetweenPolls(s, e)
    ensures Inv(SchedulePoll(s, e))
  {
    var r := SchedulePoll(s, e);
    var entry := s.entries[e];
    if s.now - entry.startTime >= MAX_POLL_DURATION_MS || entry.attempt >= MAX_POLL_ATTEMPTS {
      ResolveKeepsInv(s, e, ManualReview);
    } else {
      assert HandleOk(s, s.nextTimer);
      forall f | 0 <= f < |r.entries| ensures EntryOk(r, f) {
        if f != e {
          assert EntryOk(s, f);
          if Live(s, f) {
            assert HandleOk(s, s.entries[f].timer.value);
          }
        }
      }
      forall t ensures HandleOk(r, t) {
        assert HandleOk(s, t);
      }
    }
  }

  lemma StartKeepsInv(s: State, p: string)
    requires Inv(s)
    ensures Inv(Start(s, p))
  {
    if p !in s.active {
      var e := |s.entries|;
      var r := s.(entries := s.entries + [Entry(p, s.now, 0, None, false)], active := s.active[p := e]);
      NoCalls(s, e);
      forall f | 0 <= f < |r.entries| && f != e ensures EntryOk(r, f) {
        assert EntryOk(s, f);
      }
      forall t ensures HandleOk(r, t) {
        assert HandleOk(s, t);
      }
      forall t | t in r.timers ensures r.timers[t].entry != e {
        assert HandleOk(s, t);
      }
      ScheduleKeepsInv(r, e);
    }
  }

  lemma NoCalls(s: State, e: nat)
    requires CallsOk(s) && e >= |s.entries|
    ensures CallCount(s.calls, e) == 0
  {
    NoCallsTo(s.calls, e);
  }

  lemma {:induction false} NoCallsTo(calls: seq<Call>, e: nat)
    requires forall i :: 0 <= i < |calls| ==> calls[i].entry != e
    ensures CallCount(calls, e) == 0
  {
    if calls != [] {
      NoCallsTo(calls[..|calls| - 1], e);
    }
  }

  lemma FireKeepsInv(s: State, t: nat)
    requires Inv(s) && Enabled(s, Fire(t))
    ensures Inv(Step(s, Fire(t)))
  {
    var r := Step(s, Fire(t));
    assert HandleOk(s, t);
    assert EntryOk(s, s.timers[t].entry);
    forall f | 0 <= f < |r.entries| ensures EntryOk(r, f) {
      assert EntryOk(s, f);
    }
    forall u ensures HandleOk(r, u) {
      assert HandleOk(s, u);
    }
  }

  /** A check that returns leaves its entry live, unresolved and without a handle. */
  lemma ReturnBetweenPolls(s: State, c: nat)
    requires Inv(s) && c in s.checks
    ensures InvBetweenPolls(s.(checks := s.checks - {c}), s.checks[c])
  {
    var e := s.checks[c];
    var r := s.(checks := s.checks - {c});
    assert HandleOk(s, c);
    assert EntryOk(s, e);
    forall f | 0 <= f < |r.entries| && f != e ensures EntryOk(r, f) {
      assert EntryOk(s, f);
    }
    forall t ensures HandleOk(r, t) {
      assert HandleOk(s, t);
    }
    forall t | t in r.timers ensures r.timers[t].entry != e {
      assert HandleOk(s, t);
    }
    forall t | t in r.checks ensures r.checks[t] != e {
      assert HandleOk(s, t);
    }
  }

  lemma ForceKeepsInv(s: State, p: string, final: TransactionState)
    requires Inv(s) && Considerate(s, Force(p, final))
    ensures Inv(OnForce(s, p, final))
  {
    if p in s.active {
      var e := s.active[p];
      assert EntryOk(s, e);
      var t := s.entries[e].timer.value;
      var r := s.(timers := s.timers - {t});
      assert HandleOk(s, t);
      forall f | 0 <= f < |r.entries| && f != e ensures EntryOk(r, f) {
        assert EntryOk(s, f);
      }
      forall u ensures HandleOk(r, u) {
        assert HandleOk(s, u);
      }
      forall u | u in r.timers ensures r.timers[u].entry != e {
        assert HandleOk(s, u);
      }
      ResolveKeepsInv(r, e, final);
    }
  }

  lemma CancelKeepsInv(s: State)
    requires Inv(s) && Considerate(s, CancelAll)
    ensures Inv(Step(s, CancelAll))
  {
    var r := Step(s, CancelAll);
    forall f | 0 <= f < |r.entries| ensures EntryOk(r, f) {
      assert EntryOk(s, f);
    }
    forall t ensures HandleOk(r, t) {
      assert HandleOk(s, t);
      if t in s.timers {
        assert s.entries[s.timers[t].entry].paymentId in s.active.Keys;
      }
    }
  }

  lemma StepKeepsInv(s: State, ev: Event)
    requires Inv(s) && Enabled(s, ev) && Considerate(s, ev)
    ensures Inv(Step(s, ev))
  {
    match ev
    case StartRetry(p) => StartKeepsInv(s, p);
    case Fire(t) => FireKeepsInv(s, t);
    case Return(c, outcome) =>
      ReturnBetweenPolls(s, c);
      var back := s.(checks := s.checks - {c});
      if outcome == Succeeded {
        ResolveKeepsInv(back, s.checks[c], Committed);
      } else if outcome == Failed {
        ResolveKeepsInv(back, s.checks[c], RolledBack);
      } else {
        ScheduleKeepsInv(back, s.checks[c]);
      }
    case Force(p, final) => ForceKeepsInv(s, p, final);
    case CancelAll => CancelKeepsInv(s);
    case Tick(ms) =>
      forall e | 0 <= e < |s.entries| ensures EntryOk(Step(s, ev), e) {
        assert EntryOk(s, e);
      }
      forall t ensures HandleOk(Step(s, ev), t) {
        assert HandleOk(s, t);
      }
  }

  // ---------- Runs ----------

  /** States before and after each event of a run from the start. */
  ghost predicate Run(states: seq<State>, events: seq<Event>) {
    && |states| == |events| + 1 && states[0] == INITIAL
    && forall i {:trigger events[i]} :: 0 <= i < |events| ==>
         WellFormed(states[i]) && Enabled(states[i], events[i]) && states[i + 1] == Step(states[i], events[i])
  }

  ghost predicate ConsiderateRun(states: seq<State>, events: seq<Event>)
    requires |states| == |events| + 1
  {
    forall i {:trigger events[i]} :: 0 <= i < |events| ==> Considerate(states[i], events[i])
  }

  lemma {:induction false} RunKeepsInv(states: seq<State>, events: seq<Event>, k: nat)
    requires Run(states, events) && ConsiderateRun(states, events) && k < |states|
    ensures Inv(states[k])
  {
    if k > 0 {
      RunKeepsInv(states, events, k - 1);
      assert Considerate(states[k - 1], events[k - 1]);
      StepKeepsInv(states[k - 1], events[k - 1]);
    }
  }

  /** Something is still going on for the payment under the handle `t`. */
  ghost predicate Busy(s: State, p: string, t: nat) {
    && (t in s.timers || t in s.checks)
    && exists e :: 0 <= e < |s.entries| && s.entries[e].paymentId == p && Polling(s, e, t)
  }

  /**
   At every point of every considerate run: `onResolved` was called at most
   once for each started retry, exactly when it is resolved; a payment is being
   retried exactly when something is going on for it, and then it is one armed
   timer or one running check, of its unresolved current entry.
   */
  lemma RetryGuarantees(states: seq<State>, events: seq<Event>, k: nat)
    requires Run(states, events) && ConsiderateRun(states, events) && k < |states|
    ensures var s := states[k];
            && WellFormed(s)
            && (forall e :: 0 <= e < |s.entries| ==> CallCount(s.calls, e) == (if s.entries[e].resolved then 1 else 0))
            && (forall p :: p in s.active <==> exists t :: Busy(s, p, t))
            && (forall p, t, u :: Busy(s, p, t) && Busy(s, p, u) ==> t == u)
            && (forall p :: p in s.active ==> !s.entries[s.active[p]].resolved)
  {
    var s := states[k];
    RunKeepsInv(states, events, k);
    forall e | 0 <= e < |s.entries| ensures CallCount(s.calls, e) == (if s.entries[e].resolved then 1 else 0) {
      assert EntryOk(s, e);
    }
    forall p | p in s.active ensures !s.entries[s.active[p]].resolved && exists t :: Busy(s, p, t) {
      var e := s.active[p];
      assert EntryOk(s, e);
      assert Busy(s, p, s.entries[e].timer.value);
    }
    forall p, t: nat | Busy(s, p, t) ensures p in s.active && s.entries[s.active[p]].timer == Some(t) {
      assert HandleOk(s, t);
    }
  }
}
