/**
 The commerce transaction of packages/commerce: each successful step pushes a
 compensating action, and when the callback throws the actions run in reverse.
 */
module Transaction {

  datatype TransactionState = Pending | Committed | RolledBack | ManualReview | PendingBankReconciliation

  datatype ChargeStatus = Succeeded | Reconciling | Failed

  datatype ChargeResult = ChargeResult(id: string, status: ChargeStatus)

  /** A compensating action: it refunds a succeeded charge, and does nothing for a licence. */
  datatype Action = Refund(result: ChargeResult) | Revoke(licenceId: string)

  /** What the callback did with the handle; `Attempted` is a charge whose provider call threw. */
  datatype Call = Charged(result: ChargeResult) | Attempted | Issued(licenceId: string) | Refunded | Revoked

  // ---------- Reference: what a rollback should refund ----------

  function Reverse<T>(s: seq<T>): (r: seq<T>)
    ensures |r| == |s|
    ensures forall i :: 0 <= i < |s| ==> r[i] == s[|s| - 1 - i]
  {
    if s == [] then [] else Reverse(s[1..]) + [s[0]]
  }

  /** The succeeded charges of a script, oldest first. */
  function SucceededCharges(calls: seq<Call>): seq<string> {
    if calls == [] then []
    else
      var last := calls[|calls| - 1];
      SucceededCharges(calls[..|calls| - 1])
      + if last.Charged? && last.result.status == Succeeded then [last.result.id] else []
  }

  predicate IsReconciling(call: Call) {
    call.Charged? && call.result.status == Reconciling
  }

  ghost predicate SomeReconciling(calls: seq<Call>) {
    exists i :: 0 <= i < |calls| && IsReconciling(calls[i])
  }

  // ---------- The compensation stack ----------

  function PushedBy(c: Call): seq<Action> {
    match c
    case Charged(result) => [Refund(result)]
    case Issued(id) => [Revoke(id)]
    case _ => []
  }

  function StackOf(calls: seq<Call>): seq<Action> {
    if calls == [] then [] else StackOf(calls[..|calls| - 1]) + PushedBy(calls[|calls| - 1])
  }

  /** The charges the actions would refund, in the order of the actions. */
  function RefundIds(actions: seq<Action>): seq<string> {
    if actions == [] then []
    else (if Refunds(actions[0]) then [actions[0].result.id] else []) + RefundIds(actions[1..])
  }

  predicate Refunds(a: Action) {
    a.Refund? && a.result.status == Succeeded
  }

  lemma {:induction false} RefundIdsAppend(a: seq<Action>, b: seq<Action>)
    ensures RefundIds(a + b) == RefundIds(a) + RefundIds(b)
  {
    if a == [] {
      assert a + b == b;
    } else {
      assert (a + b)[1..] == a[1..] + b;
      RefundIdsAppend(a[1..], b);
    }
  }

  lemma TakeOne(due: seq<string>, done: seq<string>, id: string, rest: seq<string>)
    requires due == done + ([id] + rest)
    ensures |done| < |due| && due[..|done|] == done
    ensures due == (done + [id]) + rest
  {
  }

  /** The same from the `i`-th action on. */
  ghost function DueFrom(actions: seq<Action>, i: nat): seq<string>
    requires i <= |actions|
    decreases |actions| - i
  {
    if i == |actions| then []
    else (if Refunds(actions[i]) then [actions[i].result.id] else []) + DueFrom(actions, i + 1)
  }

  lemma {:induction false} DueFromIsRefundIds(actions: seq<Action>, i: nat)
    requires i <= |actions|
    ensures DueFrom(actions, i) == RefundIds(actions[i..])
    decreases |actions| - i
  {
    if i < |actions| {
      DueFromIsRefundIds(actions, i + 1);
      assert actions[i..][1..] == actions[i + 1..];
    }
  }

  lemma {:induction false} ReverseAppend<T>(a: seq<T>, b: seq<T>)
    ensures Reverse(a + b) == Reverse(b) + Reverse(a)
  {
    if a == [] {
      assert a + b == b;
    } else {
      assert (a + b)[1..] == a[1..] + b;
      ReverseAppend(a[1..], b);
    }
  }

  lemma {:induction false} RefundIdsReverse(actions: seq<Action>)
    ensures RefundIds(Reverse(actions)) == Reverse(RefundIds(actions))
  {
    if actions != [] {
      RefundIdsReverse(actions[1..]);
      RefundIdsAppend(Reverse(actions[1..]), [actions[0]]);
      var head := if Refunds(actions[0]) then [actions[0].result.id] else [];
      assert RefundIds([actions[0]]) == head + RefundIds([]) by { assert [actions[0]][1..] == []; }
      ReverseAppend(head, RefundIds(actions[1..]));
      assert Reverse(head) == head;
    }
  }

  lemma PushedRefunds(c: Call)
    ensures RefundIds(PushedBy(c)) == if c.Charged? && c.result.status == Succeeded then [c.result.id] else []
  {
    if PushedBy(c) != [] {
      assert PushedBy(c)[1..] == [];
    }
  }

  /** The actions on the stack refund exactly the succeeded charges. */
  lemma {:induction false} StackRefunds(calls: seq<Call>)
    ensures RefundIds(StackOf(calls)) == SucceededCharges(calls)
  {
    if calls != [] {
      var n := |calls| - 1;
      StackRefunds(calls[..n]);
      RefundIdsAppend(StackOf(calls[..n]), PushedBy(calls[n]));
      PushedRefunds(calls[n]);
    }
  }

  lemma OneMoreReconciling(calls: seq<Call>, c: Call)
    ensures SomeReconciling(calls + [c]) <==> SomeReconciling(calls) || IsReconciling(c)
  {
    var longer := calls + [c];
    assert longer[|calls|] == c;
    if i :| 0 <= i < |calls| && IsReconciling(calls[i]) {
      assert longer[i] == calls[i];
    }
  }

  lemma OneMoreCall(calls: seq<Call>, c: Call)
    ensures StackOf(calls + [c]) == StackOf(calls) + PushedBy(c)
    ensures SomeReconciling(calls + [c]) <==> SomeReconciling(calls) || IsReconciling(c)
  {
    assert (calls + [c])[..|calls|] == calls;
    OneMoreReconciling(calls, c);
  }

  // ---------- One transaction, run to its end ----------

  /** The provider: whether it has `refund`, and whether its `k`-th refund call goes through. */
  datatype Provider = Provider(hasRefund: bool, works: nat -> bool)

  /** What the actions from the `i`-th on refund with this provider. */
  ghost function DueIn(provider: Provider, actions: seq<Action>, i: nat): seq<string>
    requires i <= |actions|
  {
    if provider.hasRefund then DueFrom(actions, i) else []
  }

  /** The first `n` refund calls go through. */
  ghost predicate WorkUpTo(provider: Provider, n: nat) {
    forall k: nat :: k < n ==> provider.works(k)
  }

  /** `k` is the first refund call that throws. */
  ghost predicate FirstFailure(provider: Provider, k: nat) {
    !provider.works(k) && WorkUpTo(provider, k)
  }

  /** What a rollback owes: the succeeded charges, newest first. */
  function Owed(provider: Provider, calls: seq<Call>): seq<string> {
    if provider.hasRefund then Reverse(SucceededCharges(calls)) else []
  }

  /** All that is due was refunded, or what comes before the first refund that throws. */
  ghost predicate Compensates(provider: Provider, due: seq<string>, refunds: seq<string>, threw: bool) {
    if threw then |refunds| < |due| && refunds == due[..|refunds|] && FirstFailure(provider, |refunds|)
    else refunds == due && WorkUpTo(provider, |due|)
  }

  class Saga {
    const provider: Provider
    var stack: seq<Action>
    var state: TransactionState
    /** The refund calls that went through, in order. */
    var refunds: seq<string>
    ghost var calls: seq<Call>

    ghost predicate Valid()
      reads this
    {
      && stack == StackOf(calls) && refunds == []
      && state == if SomeReconciling(calls) then PendingBankReconciliation else Pending
    }

    constructor (provider: Provider)
      ensures Valid() && calls == [] && this.provider == provider
    {
      this.provider := provider;
      stack, state, refunds, calls := [], Pending, [], [];
    }

    /** One use of the handle, as it ended. The action is pushed after the charge, not before. */
    method Perform(call: Call)
      requires Valid()
      modifies this
      ensures Valid() && calls == old(calls) + [call]
    {
      OneMoreCall(calls, call);
      calls := calls + [call];
      match call {
        case Charged(result) =>
          if result.status == Reconciling {
            state := PendingBankReconciliation;
          }
          stack := stack + [Refund(result)];
        case Issued(id) =>
          stack := stack + [Revoke(id)];
        case _ =>
      }
    }

    /** Runs the actions in the given order until one throws. */
    method RunInOrder(actions: seq<Action>) returns (threw: bool)
      requires refunds == []
      modifies this`refunds
      ensures Compensates(provider, if provider.hasRefund then RefundIds(actions) else [], refunds, threw)
    {
      DueFromIsRefundIds(actions, 0);
      assert actions[0..] == actions;
      threw := false;
      ghost var due := DueIn(provider, actions, 0);
      assert due == refunds + DueIn(provider, actions, 0);
      for i := 0 to |actions|
        invariant due == refunds + DueIn(provider, actions, i)
        invariant WorkUpTo(provider, |refunds|)
      {
        if actions[i].Refund? && actions[i].result.status == Succeeded && provider.hasRefund {
          TakeOne(due, refunds, actions[i].result.id, DueIn(provider, actions, i + 1));
          if !provider.works(|refunds|) {
            threw := true;
            return;
          }
          refunds := refunds + [actions[i].result.id];
        } else {
          assert DueIn(provider, actions, i) == DueIn(provider, actions, i + 1);
        }
      }
      assert DueIn(provider, actions, |actions|) == [];
    }

    /** Runs the stacked actions in reverse until one throws. */
    method RunAll() returns (threw: bool)
      requires refunds == []
      modifies this`refunds
      ensures Compensates(provider, if provider.hasRefund then RefundIds(Reverse(stack)) else [], refunds, threw)
    {
      var reversed := Reverse(stack);
      threw := RunInOrder(reversed);
    }

    /** The callback returns. */
    method Commit()
      requires Valid()
      modifies this`state
      ensures state == if SomeReconciling(calls) then PendingBankReconciliation else Committed
      ensures refunds == []
    {
      state := if state == PendingBankReconciliation then PendingBankReconciliation else Committed;
    }

    /**
     The callback throws. With a provider that can refund: when every refund
     goes through, exactly the succeeded charges are refunded, newest first,
     once each; otherwise exactly those before the first refund that throws.
     */
    method Rollback()
      requires Valid()
      modifies this`state, this`refunds
      ensures Compensates(provider, Owed(provider, calls), refunds, state == ManualReview)
      ensures state == if WorkUpTo(provider, |Owed(provider, calls)|) then RolledBack else ManualReview
    {
      StackRefunds(calls);
      RefundIdsReverse(stack);
      var threw := RunAll();
      state := if threw then ManualReview else RolledBack;
    }
  }

  /** Runs a callback that makes the given calls and then returns or throws. */
  method RunTransaction(provider: Provider, script: seq<Call>, throws: bool)
    returns (state: TransactionState, refunds: seq<string>)
    ensures !throws ==>
              && refunds == []
              && state == if exists call :: call in script && call.Charged? && call.result.status == Reconciling
                          then PendingBankReconciliation else Committed
    ensures throws ==>
              var owed := if provider.hasRefund then Reverse(SucceededCharges(script)) else [];
              && Compensates(provider, owed, refunds, state == ManualReview)
              && state == if WorkUpTo(provider, |owed|) then RolledBack else ManualReview
  {
    var saga := new Saga(provider);
    for i := 0 to |script|
      invariant saga.Valid() && saga.calls == script[..i] && saga.provider == provider
      invariant fresh(saga)
    {
      saga.Perform(script[i]);
      assert script[..i + 1] == script[..i] + [script[i]];
    }
    assert script[..|script|] == script;
    if throws {
      saga.Rollback();
    } else {
      saga.Commit();
    }
    state, refunds := saga.state, saga.refunds;
  }

  // ---------- Charges that overlap the end of the callback ----------

  datatype Phase = Running | Returned | Compensating(queue: seq<Action>) | Compensated | Stuck

  /**
   A callback can leave charges under way when it returns or throws. `ended`
   are the calls that ended while it ran, `late` those that ended afterwards,
   the first `settled` of them before the final state was written.
   */
  datatype Progress = Progress(stack: seq<Action>, phase: Phase, state: TransactionState, refunds: seq<string>,
                               ended: seq<Call>, late: seq<Call>, settled: nat)

  datatype Event = Ends(call: Call) | Returns | Throws | RunNext

  const STARTED := Progress([], Running, Pending, [], [], [], 0)

  function Step(provider: Provider, p: Progress, e: Event): Progress {
    match e
    case Ends(call) =>
      var q := p.(stack := p.stack + PushedBy(call),
                  state := if IsReconciling(call) then PendingBankReconciliation else p.state);
      if p.phase == Running then q.(ended := p.ended + [call]) else q.(late := p.late + [call])
    case Returns =>
      if p.phase != Running then p
      else p.(phase := Returned, settled := |p.late|,
              state := if p.state == PendingBankReconciliation then PendingBankReconciliation else Committed)
    case Throws =>
      if p.phase != Running then p else p.(phase := Compensating(Reverse(p.stack)))
    case RunNext =>
      if !p.phase.Compensating? then p
      else if p.phase.queue == [] then p.(phase := Compensated, state := RolledBack, settled := |p.late|)
      else
        var action, rest := p.phase.queue[0], p.phase.queue[1..];
        if !Refunds(action) || !provider.hasRefund then p.(phase := Compensating(rest))
        else if provider.works(|p.refunds|) then
          p.(phase := Compensating(rest), refunds := p.refunds + [action.result.id])
        else p.(phase := Stuck, state := ManualReview, settled := |p.late|)
  }

  function Exec(provider: Provider, events: seq<Event>): Progress {
    if events == [] then STARTED
    else Step(provider, Exec(provider, events[..|events| - 1]), events[|events| - 1])
  }

  ghost predicate Inv(provider: Provider, p: Progress) {
    RefundsOk(provider, p) && StateOk(p)
  }

  /** What has been refunded, and which refund calls went through. */
  ghost predicate RefundsOk(provider: Provider, p: Progress) {
    && WorkUpTo(provider, |p.refunds|)
    && match p.phase
       case Running => p.stack == StackOf(p.ended) && p.late == [] && p.refunds == []
       case Returned => p.refunds == []
       case Compensating(queue) =>
         Owed(provider, p.ended) == p.refunds + if provider.hasRefund then RefundIds(queue) else []
       case Compensated => Compensates(provider, Owed(provider, p.ended), p.refunds, false)
       case Stuck => Compensates(provider, Owed(provider, p.ended), p.refunds, true)
  }

  /** What the end of the callback, or of its compensation, makes the state. */
  ghost function FinalState(p: Progress): TransactionState {
    match p.phase
    case Running => Pending
    case Returned => if SomeReconciling(p.ended) then PendingBankReconciliation else Committed
    case Compensating(_) => if SomeReconciling(p.ended) then PendingBankReconciliation else Pending
    case Compensated => RolledBack
    case Stuck => ManualReview
  }

  /** The state is final unless a bank-pending charge has ended since. */
  ghost predicate StateOk(p: Progress) {
    && p.settled <= |p.late|
    && (p.phase.Running? || p.phase.Returned? || p.phase.Compensating? ==> p.settled == 0)
    && (p.phase.Running? ==> p.late == [])
    && p.state == if SomeReconciling(if p.phase.Running? then p.ended else p.late[p.settled..])
                  then PendingBankReconciliation else FinalState(p)
  }

  lemma OneMoreLate(late: seq<Call>, settled: nat, call: Call)
    requires settled <= |late|
    ensures SomeReconciling((late + [call])[settled..]) <==> SomeReconciling(late[settled..]) || IsReconciling(call)
  {
    assert (late + [call])[settled..] == late[settled..] + [call];
    OneMoreCall(late[settled..], call);
  }

  /** The next compensating action runs. */
  lemma RunNextKeepsRefunds(provider: Provider, p: Progress, queue: seq<Action>)
    requires RefundsOk(provider, p) && p.phase == Compensating(queue)
    ensures RefundsOk(provider, Step(provider, p, RunNext))
  {
    if queue != [] {
      var rest := RefundIds(queue[1..]);
      if Refunds(queue[0]) && provider.hasRefund {
        assert Owed(provider, p.ended) == p.refunds + ([queue[0].result.id] + rest);
        TakeOne(Owed(provider, p.ended), p.refunds, queue[0].result.id, rest);
      } else {
        assert provider.hasRefund ==> RefundIds(queue) == [] + rest == rest;
      }
    } else {
      assert Owed(provider, p.ended) == p.refunds;
    }
  }

  lemma StepKeepsRefunds(provider: Provider, p: Progress, e: Event)
    requires RefundsOk(provider, p)
    ensures RefundsOk(provider, Step(provider, p, e))
  {
    match e
    case Ends(call) => OneMoreCall(p.ended, call);
    case Returns =>
    case Throws =>
      StackRefunds(p.ended);
      RefundIdsReverse(p.stack);
    case RunNext =>
      if p.phase.Compensating? {
        RunNextKeepsRefunds(provider, p, p.phase.queue);
      }
  }

  lemma StepKeepsState(provider: Provider, p: Progress, e: Event)
    requires StateOk(p)
    ensures StateOk(Step(provider, p, e))
  {
    match e
    case Ends(call) =>
      OneMoreCall(p.ended, call);
      OneMoreLate(p.late, p.settled, call);
    case Returns =>
    case Throws =>
    case RunNext =>
  }

  /**
   In every interleaving: a completed rollback refunded exactly the charges
   that succeeded before the throw, newest first; one that got stuck refunded
   those before the first refund that threw; a callback that returned refunded
   nothing. The state is the final one unless a bank-pending charge ended since.
   */
  lemma {:induction false} EveryInterleaving(provider: Provider, events: seq<Event>)
    ensures Inv(provider, Exec(provider, events))
  {
    if events != [] {
      EveryInterleaving(provider, events[..|events| - 1]);
      StepKeepsRefunds(provider, Exec(provider, events[..|events| - 1]), events[|events| - 1]);
      StepKeepsState(provider, Exec(provider, events[..|events| - 1]), events[|events| - 1]);
    }
  }

  lemma {:induction false} SucceededChargesAppend(a: seq<Call>, b: seq<Call>)
    ensures SucceededCharges(a + b) == SucceededCharges(a) + SucceededCharges(b)
  {
    if b == [] {
      assert a + b == a;
    } else {
      var n := |b| - 1;
      assert (a + b)[..|a| + n] == a + b[..n];
      SucceededChargesAppend(a, b[..n]);
    }
  }

  /**
   A completed rollback has refunded every succeeded charge exactly when none
   succeeded after the callback threw: the action of a late charge never runs.
   */
  lemma RollbackCompleteIffNoneLate(provider: Provider, events: seq<Event>)
    requires provider.hasRefund && Exec(provider, events).phase == Compensated
    ensures var p := Exec(provider, events);
            p.refunds == Reverse(SucceededCharges(p.ended + p.late)) <==> SucceededCharges(p.late) == []
  {
    EveryInterleaving(provider, events);
    var p := Exec(provider, events);
    SucceededChargesAppend(p.ended, p.late);
    if SucceededCharges(p.late) == [] {
      assert SucceededCharges(p.ended) + [] == SucceededCharges(p.ended);
    }
  }

  /** Each charge that succeeded, and nothing else, in order. */
  lemma SucceededChargesAre(before: seq<Call>, call: Call)
    ensures SucceededCharges([]) == []
    ensures SucceededCharges(before + [call]) == SucceededCharges(before) +
      match call
      case Charged(ChargeResult(id, Succeeded)) => [id]
      case Charged(ChargeResult(_, Reconciling)) => []
      case Charged(ChargeResult(_, Failed)) => []
      case Attempted => []
      case Issued(_) => []
      case Refunded => []
      case Revoked => []
  {
    assert (before + [call])[..|before|] == before;
  }

  // ---------- Every rollback ends ----------

  /** The calls that end in these events, in order. */
  function CallsOf(events: seq<Event>): seq<Call> {
    if events == [] then []
    else CallsOf(events[..|events| - 1]) + if events[|events| - 1].Ends? then [events[|events| - 1].call] else []
  }

  /** How often a compensating action gets its turn. */
  function Turns(events: seq<Event>): nat {
    if events == [] then 0 else Turns(events[..|events| - 1]) + if events[|events| - 1] == RunNext then 1 else 0
  }

  /** The callback returns or throws for the first time at `n`. */
  ghost predicate CallbackEnds(events: seq<Event>, n: nat) {
    && n < |events| && (events[n] == Returns || events[n] == Throws)
    && forall i :: 0 <= i < n ==> events[i] != Returns && events[i] != Throws
  }

  lemma {:induction false} StackBound(calls: seq<Call>)
    ensures |StackOf(calls)| <= |calls|
  {
    if calls != [] {
      StackBound(calls[..|calls| - 1]);
    }
  }

  lemma {:induction false} StillRunning(provider: Provider, events: seq<Event>)
    requires forall i :: 0 <= i < |events| ==> events[i] != Returns && events[i] != Throws
    ensures var p := Exec(provider, events); p.phase == Running && p.ended == CallsOf(events)
  {
    if events != [] {
      StillRunning(provider, events[..|events| - 1]);
    }
  }

  /** What these calls that ended and turns that were taken since `p` have led to. */
  ghost predicate Advanced(p: Progress, calls: seq<Call>, turns: nat, now: Progress) {
    && now.ended == p.ended && now.late == p.late + calls && now.phase != Running
    && (p.phase == Returned ==> now.phase == Returned)
    && (p.phase.Compensating? ==>
          || now.phase.Compensated? || now.phase.Stuck?
          || (now.phase.Compensating? && |now.phase.queue| + turns == |p.phase.queue|))
  }

  lemma AdvancedStep(provider: Provider, p: Progress, calls: seq<Call>, turns: nat, now: Progress, e: Event)
    requires Advanced(p, calls, turns, now)
    ensures Advanced(p, calls + if e.Ends? then [e.call] else [], turns + if e == RunNext then 1 else 0,
                     Step(provider, now, e))
  {
    if !e.Ends? {
      assert calls + [] == calls;
    }
  }

  lemma OneMoreEvent(events: seq<Event>, n: nat)
    requires n < |events|
    ensures var m := |events| - 1;
            && CallsOf(events[n..]) == CallsOf(events[..m][n..]) + (if events[m].Ends? then [events[m].call] else [])
            && Turns(events[n..]) == Turns(events[..m][n..]) + if events[m] == RunNext then 1 else 0
  {
    assert events[n..][..|events| - 1 - n] == events[..|events| - 1][n..];
  }

  /** After the callback has ended no call is added to those it made, and each turn takes one action. */
  lemma {:induction false} AfterEnd(provider: Provider, events: seq<Event>, n: nat)
    requires n <= |events| && Exec(provider, events[..n]).phase != Running
    ensures Advanced(Exec(provider, events[..n]), CallsOf(events[n..]), Turns(events[n..]), Exec(provider, events))
    decreases |events|
  {
    var p := Exec(provider, events[..n]);
    if n == |events| {
      assert events[..n] == events;
      assert p.late + [] == p.late;
    } else {
      var m := |events| - 1;
      assert events[..m][..n] == events[..n];
      OneMoreEvent(events, n);
      AfterEnd(provider, events[..m], n);
      AdvancedStep(provider, p, CallsOf(events[..m][n..]), Turns(events[..m][n..]),
                   Exec(provider, events[..m]), events[m]);
    }
  }

  /**
   In every interleaving, once the callback has thrown and more turns were
   taken than it had made calls, the rollback is over: completed when the
   refunds it owes go through, and stuck at the first that throws otherwise.
   */
  lemma RollbackEnds(provider: Provider, events: seq<Event>, n: nat)
    requires CallbackEnds(events, n) && events[n] == Throws
    requires Turns(events[n + 1..]) > |CallsOf(events[..n])|
    ensures var p, owed := Exec(provider, events), Owed(provider, CallsOf(events[..n]));
            && p.phase == (if WorkUpTo(provider, |owed|) then Compensated else Stuck)
            && Compensates(provider, owed, p.refunds, p.phase == Stuck)
            && p.ended == CallsOf(events[..n]) && p.late == CallsOf(events[n + 1..])
  {
    var thrown := ThrownState(provider, events, n);
    AfterEnd(provider, events, n + 1);
    EveryInterleaving(provider, events);
    TurnsSuffice(provider, thrown, CallsOf(events[n + 1..]), Turns(events[n + 1..]), Exec(provider, events));
  }

  lemma ThrownState(provider: Provider, events: seq<Event>, n: nat) returns (p: Progress)
    requires CallbackEnds(events, n) && events[n] == Throws
    ensures p == Exec(provider, events[..n + 1]) && p.ended == CallsOf(events[..n]) && p.late == []
    ensures p.phase.Compensating? && |p.phase.queue| <= |p.ended|
  {
    StillRunning(provider, events[..n]);
    EveryInterleaving(provider, events[..n]);
    StackBound(CallsOf(events[..n]));
    assert events[..n + 1][..n] == events[..n];
    p := Exec(provider, events[..n + 1]);
  }

  lemma TurnsSuffice(provider: Provider, p: Progress, calls: seq<Call>, turns: nat, now: Progress)
    requires p.phase.Compensating? && turns > |p.ended| >= |p.phase.queue| && p.late == []
    requires Advanced(p, calls, turns, now) && RefundsOk(provider, now)
    ensures var owed := Owed(provider, p.ended);
            && now.phase == (if WorkUpTo(provider, |owed|) then Compensated else Stuck)
            && Compensates(provider, owed, now.refunds, now.phase == Stuck)
            && now.ended == p.ended && now.late == calls
  {
  }

  /** A callback that returns first is never rolled back, whatever comes later. */
  lemma ReturnedStays(provider: Provider, events: seq<Event>, n: nat)
    requires CallbackEnds(events, n) && events[n] == Returns
    ensures var p := Exec(provider, events);
            && p.phase == Returned && p.refunds == []
            && p.ended == CallsOf(events[..n]) && p.late == CallsOf(events[n + 1..])
  {
    StillRunning(provider, events[..n]);
    EveryInterleaving(provider, events[..n]);
    assert events[..n + 1][..n] == events[..n];
    AfterEnd(provider, events, n + 1);
    EveryInterleaving(provider, events);
  }

  predicate Final(phase: Phase) {
    phase.Returned? || phase.Compensated? || phase.Stuck?
  }

  predicate EndsReconciling(e: Event) {
    e.Ends? && IsReconciling(e.call)
  }

  ghost predicate ReconcilesFrom(events: seq<Event>, n: nat) {
    exists i :: n <= i < |events| && EndsReconciling(events[i])
  }

  lemma ReconcilesMore(events: seq<Event>, n: nat)
    requires n < |events|
    ensures ReconcilesFrom(events, n)
        <==> ReconcilesFrom(events[..|events| - 1], n) || EndsReconciling(events[|events| - 1])
  {
    var m := |events| - 1;
    if i :| n <= i < m && EndsReconciling(events[i]) {
      assert EndsReconciling(events[..m][i]);
    }
  }

  lemma FinalStep(provider: Provider, p: Progress, e: Event)
    requires Final(p.phase)
    ensures var q := Step(provider, p, e);
            && q.phase == p.phase && q.refunds == p.refunds
            && q.state == if EndsReconciling(e) then PendingBankReconciliation else p.state
  {
  }

  /**
   Once final, a state stays as it is exactly until a charge ends that is
   bank-pending: that takes the transaction out of any final state for good.
   */
  lemma {:induction false} FinalStateIff(provider: Provider, events: seq<Event>, n: nat)
    requires n <= |events| && Final(Exec(provider, events[..n]).phase)
    ensures var settled, now := Exec(provider, events[..n]), Exec(provider, events);
            && now.phase == settled.phase && now.refunds == settled.refunds
            && now.state == if ReconcilesFrom(events, n) then PendingBankReconciliation else settled.state
    decreases |events|
  {
    var m := |events| - 1;
    if n == |events| {
      assert events[..n] == events;
    } else {
      assert events[..m][..n] == events[..n];
      FinalStateIff(provider, events[..m], n);
      FinalStep(provider, Exec(provider, events[..m]), events[m]);
      ReconcilesMore(events, n);
    }
  }

  /** A committed transaction that is reopened. */
  lemma LateChargeReopensCommit(provider: Provider, id: string)
    ensures Exec(provider, [Returns]).state == Committed
    ensures Exec(provider, [Returns, Ends(Charged(ChargeResult(id, Reconciling)))]).state == PendingBankReconciliation
  {
    var events := [Returns, Ends(Charged(ChargeResult(id, Reconciling)))];
    assert events[..1] == [Returns] && [Returns][..0] == [];
  }
}
