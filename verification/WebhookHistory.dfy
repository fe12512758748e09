/**
 Which deliveries are duplicates, from the deliveries, handler ends and direct
 marks of a run alone.
 */
module WebhookHistory {
  import opened Wrappers
  import opened WebhookDedup

  // ---------- What the events say ----------

  predicate Delivers(ev: Event, run: nat) {
    ev.Deliver? && ev.run == run
  }

  /** The last delivery handled as `run` before `k` is the `i`-th event. */
  ghost predicate LastDelivery(events: seq<Event>, run: nat, i: nat, k: nat) {
    && i < k <= |events| && Delivers(events[i], run)
    && forall m :: i < m < k ==> !Delivers(events[m], run)
  }

  ghost predicate HandledFor(events: seq<Event>, run: nat, eventId: string, k: nat) {
    exists i: nat :: LastDelivery(events, run, i, k) && events[i].eventId == eventId
  }

  /** The `j`-th event marks the id until `until`: directly, or because its handler succeeded, for 24 hours. */
  ghost predicate MarksUntil(events: seq<Event>, eventId: string, until: int, j: nat)
    requires j < |events|
  {
    match events[j]
    case MarkDirectly(id, ttl, at) => id == eventId && until == at + ttl
    case Finish(run, at) => HandledFor(events, run, eventId, j) && until == at + 86_400_000
    case _ => false
  }

  ghost predicate Marks(events: seq<Event>, eventId: string, j: nat)
    requires j < |events|
  {
    exists until :: MarksUntil(events, eventId, until, j)
  }

  /** The last of the first `k` events to mark the id does so until `until`. */
  ghost predicate LastMarked(events: seq<Event>, eventId: string, until: int, j: nat, k: nat) {
    && j < k <= |events| && MarksUntil(events, eventId, until, j)
    && forall m :: j < m < k ==> !Marks(events, eventId, m)
  }

  ghost predicate MarkedUntil(events: seq<Event>, eventId: string, until: int, k: nat) {
    exists j: nat :: LastMarked(events, eventId, until, j, k)
  }

  // ---------- What the deduplication holds ----------

  lemma {:induction false} RunningIsHandled(states: seq<State>, events: seq<Event>, run: nat, k: nat)
    requires Run(states, events) && k <= |events| && run in states[k].running
    ensures HandledFor(events, run, states[k].running[run].eventId, k)
  {
    if k > 0 {
      var s, ev := states[k - 1], events[k - 1];
      assert states[k] == Step(s, ev);
      if Delivers(ev, run) {
        assert LastDelivery(events, run, k - 1, k);
      } else {
        RunningIsHandled(states, events, run, k - 1);
        var i: nat :| LastDelivery(events, run, i, k - 1) && events[i].eventId == s.running[run].eventId;
        assert LastDelivery(events, run, i, k);
      }
    }
  }

  /** A handler that returned or threw is not running until its number is used again. */
  lemma {:induction false} EndedNotRunning(states: seq<State>, events: seq<Event>, run: nat, i: nat, k: nat)
    requires Run(states, events) && i < k <= |events|
    requires (events[i].Finish? || events[i].Fail?) && events[i].run == run
    requires forall m :: i < m < k ==> !Delivers(events[m], run)
    ensures run !in states[k].running
    decreases k
  {
    assert states[k] == Step(states[k - 1], events[k - 1]);
    if i < k - 1 {
      EndedNotRunning(states, events, run, i, k - 1);
      assert !Delivers(events[k - 1], run);
    }
  }

  lemma HandledOnce(events: seq<Event>, run: nat, a: string, b: string, k: nat)
    requires HandledFor(events, run, a, k) && HandledFor(events, run, b, k)
    ensures a == b
  {
    var i: nat :| LastDelivery(events, run, i, k) && events[i].eventId == a;
    var j: nat :| LastDelivery(events, run, j, k) && events[j].eventId == b;
    assert i == j;
  }

  /** The history's last mark of the id is the one the last marking event made. */
  ghost predicate LastMarkIs(events: seq<Event>, eventId: string, last: Option<Mark>, k: nat)
    requires k <= |events|
  {
    if last.Some? then MarkedUntil(events, eventId, last.value.at + last.value.ttl, k)
    else forall m :: 0 <= m < k ==> !Marks(events, eventId, m)
  }

  lemma NewMark(states: seq<State>, events: seq<Event>, eventId: string, i: nat)
    requires Run(states, events) && i < |events|
    ensures var before, after := states[i].marks, states[i + 1].marks;
            if Marks(events, eventId, i) then
              && LastMark(after, eventId).Some?
              && var mark := LastMark(after, eventId).value; MarksUntil(events, eventId, mark.at + mark.ttl, i)
            else LastMark(after, eventId) == LastMark(before, eventId)
  {
    var s, ev := states[i], events[i];
    var after := states[i + 1].marks;
    assert states[i + 1] == Step(s, ev);
    match ev
    case Finish(run, at) =>
      assert after[..|s.marks|] == s.marks;
      RunningIsHandled(states, events, run, i);
      if HandledFor(events, run, eventId, i) {
        HandledOnce(events, run, eventId, s.running[run].eventId, i);
      }
      assert HandledFor(events, run, eventId, i) ==> MarksUntil(events, eventId, at + 86_400_000, i);
    case MarkDirectly(id, ttl, at) =>
      assert after[..|s.marks|] == s.marks;
      assert id == eventId ==> MarksUntil(events, eventId, at + ttl, i);
    case _ =>
  }

  lemma {:induction false} LastMarkFromEvents(states: seq<State>, events: seq<Event>, eventId: string, k: nat)
    requires Run(states, events) && k <= |events|
    ensures LastMarkIs(events, eventId, LastMark(states[k].marks, eventId), k)
  {
    if k > 0 {
      var i := k - 1;
      LastMarkFromEvents(states, events, eventId, i);
      NewMark(states, events, eventId, i);
      LastMarkStep(events, eventId, LastMark(states[i].marks, eventId), LastMark(states[k].marks, eventId), i);
    }
  }

  lemma LastMarkStep(events: seq<Event>, eventId: string, before: Option<Mark>, last: Option<Mark>, i: nat)
    requires i < |events| && LastMarkIs(events, eventId, before, i)
    requires if Marks(events, eventId, i) then
               last.Some? && MarksUntil(events, eventId, last.value.at + last.value.ttl, i)
             else last == before
    ensures LastMarkIs(events, eventId, last, i + 1)
  {
    if Marks(events, eventId, i) {
      assert LastMarked(events, eventId, last.value.at + last.value.ttl, i, i + 1);
    } else if last.Some? {
      var until := last.value.at + last.value.ttl;
      var j: nat :| LastMarked(events, eventId, until, j, i);
      assert LastMarked(events, eventId, until, j, i + 1);
    }
  }

  /** The last mark before `k` counts at `now`. */
  ghost predicate MarkCounts(events: seq<Event>, eventId: string, now: int, k: nat) {
    exists until :: MarkedUntil(events, eventId, until, k) && until > now
  }

  lemma MarkCountsIff(states: seq<State>, events: seq<Event>, eventId: string, now: int, k: nat)
    requires Run(states, events) && k <= |events|
    ensures MarkCounts(events, eventId, now, k) <==> StillMarked(states[k].marks, eventId, now)
  {
    LastMarkFromEvents(states, events, eventId, k);
    var last := LastMark(states[k].marks, eventId);
    if MarkCounts(events, eventId, now, k) {
      var until :| MarkedUntil(events, eventId, until, k) && until > now;
      var j: nat :| LastMarked(events, eventId, until, j, k);
      assert Marks(events, eventId, j);
      var other: nat :| LastMarked(events, eventId, last.value.at + last.value.ttl, other, k);
      assert Marks(events, eventId, other);
      assert j == other;
    }
  }

  /**
   In every interleaving a delivery is rejected as a duplicate exactly when the
   last event to mark its id, directly or by a handler that succeeded, marked
   it beyond now; otherwise it is handled if it has a handler. A handler that
   throws marks nothing.
   */
  lemma DuplicatesFromEvents(states: seq<State>, events: seq<Event>, k: nat)
    requires Run(states, events) && k < |events| && events[k].Deliver?
    ensures var ev, before, after := events[k], states[k], states[k + 1];
            if MarkCounts(events, ev.eventId, ev.checkAt, k) then
              |after.duplicates| == |before.duplicates| + 1 && after.running == before.running
            else
              && after.duplicates == before.duplicates
              && (ev.run in after.running <==> ev.hasHandler)
              && after.running - {ev.run} == before.running
  {
    var ev, s := events[k], states[k];
    assert states[k + 1] == Step(s, ev) && Enabled(s, ev);
    DuplicateIffStillMarked(states, events, k, ev.eventId, ev.evictAt, ev.checkAt);
    MarkCountsIff(states, events, ev.eventId, ev.checkAt, k);
  }
}
