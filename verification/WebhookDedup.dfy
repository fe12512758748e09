/**
 Webhook deduplication of packages/commerce: a cache of processed event ids
 that forgets expired entries, refined against the full history of marks.
 Deliveries interleave freely while their handlers run.
 */
module WebhookDedup {
  import opened Wrappers

  const DEFAULT_TTL_MS: int := 24 * 60 * 60 * 1000

  datatype CacheEntry = CacheEntry(processedAt: int, expiresAt: int)

  type Cache = map<string, CacheEntry>

  function Key(eventId: string): string {
    "ibiz_wh_evt_" + eventId
  }

  lemma KeyInjective(a: string, b: string)
    ensures Key(a) == Key(b) ==> a == b
  {
    assert a == Key(a)[12..] && b == Key(b)[12..];
  }

  // ---------- The cache ----------

  function Evicted(cache: Cache, now: int): Cache {
    map k | k in cache && cache[k].expiresAt >= now :: cache[k]
  }

  predicate Fresh(cache: Cache, eventId: string, now: int) {
    Key(eventId) in cache && cache[Key(eventId)].expiresAt > now
  }

  function Marked(cache: Cache, eventId: string, now: int, ttlMs: int): Cache {
    cache[Key(eventId) := CacheEntry(now, now + ttlMs)]
  }

  /** How `processWebhook` ends, or that it goes on to run the handler. */
  datatype Verdict = Duplicate | NoHandler | RunHandler

  class Dedup {
    var cache: Cache
    /** The providers with a registered handler. */
    var handlers: set<string>

    constructor ()
      ensures cache == map[] && handlers == {}
    {
      cache := map[];
      handlers := {};
    }

    method Handle(provider: string)
      modifies this`handlers
      ensures handlers == old(handlers) + {provider}
    {
      handlers := handlers + {provider};
    }

    /** `processWebhook` up to its `await`. */
    method Receive(eventId: string, provider: string, evictAt: int, checkAt: int) returns (verdict: Verdict)
      modifies this`cache
      ensures cache == Evicted(old(cache), evictAt)
      ensures verdict == if Fresh(Evicted(old(cache), evictAt), eventId, checkAt) then Duplicate
                         else if provider in handlers then RunHandler else NoHandler
    {
      var duplicate := IsDuplicate(eventId, evictAt, checkAt);
      if duplicate {
        return Duplicate;
      }
      if provider !in handlers {
        return NoHandler;
      }
      return RunHandler;
    }

    /** `processWebhook` after its handler succeeded; when the handler throws, nothing is marked. */
    method HandlerReturned(eventId: string, now: int)
      modifies this`cache
      ensures cache == Marked(old(cache), eventId, now, 86_400_000)
    {
      MarkProcessed(eventId, now, DEFAULT_TTL_MS);
    }

    method EvictExpired(now: int)
      modifies this`cache
      ensures cache == Evicted(old(cache), now)
    {
      ghost var all := cache;
      var rest := cache.Keys;
      while rest != {}
        invariant rest <= cache.Keys
        invariant cache == map k | k in all && (k in rest || all[k].expiresAt >= now) :: all[k]
        decreases rest
      {
        var key :| key in rest;
        if cache[key].expiresAt < now {
          cache := cache - {key};
        }
        rest := rest - {key};
      }
    }

    /** The clock is read once to evict and once to compare. */
    method IsDuplicate(eventId: string, evictAt: int, checkAt: int) returns (duplicate: bool)
      modifies this`cache
      ensures cache == Evicted(old(cache), evictAt)
      ensures duplicate <==> Fresh(Evicted(old(cache), evictAt), eventId, checkAt)
    {
      EvictExpired(evictAt);
      if Key(eventId) !in cache {
        return false;
      }
      return cache[Key(eventId)].expiresAt > checkAt;
    }

    method MarkProcessed(eventId: string, now: int, ttlMs: int)
      modifies this`cache
      ensures cache == old(cache)["ibiz_wh_evt_" + eventId := CacheEntry(now, now + ttlMs)]
    {
      cache := cache[Key(eventId) := CacheEntry(now, now + ttlMs)];
    }
  }

  // ---------- Interleaved deliveries ----------

  /** A recorded mark: until when it counts. */
  datatype Mark = Mark(eventId: string, at: int, ttl: int)

  /** A delivery let through at `start`, when `after` runs had already succeeded. */
  datatype Delivery = Delivery(eventId: string, start: int, after: nat)

  /** A handler run that succeeded. */
  datatype Success = Success(delivery: Delivery, end: int)

  /** `marks`, `successes` and `duplicates` record the past; `marks` is never pruned. */
  datatype State = State(cache: Cache, running: map<nat, Delivery>, now: int,
                         marks: seq<Mark>, successes: seq<Success>, duplicates: seq<Delivery>)

  const INITIAL := State(map[], map[], 0, [], [], [])

  datatype Event =
    | Deliver(run: nat, eventId: string, hasHandler: bool, evictAt: int, checkAt: int)
    | Finish(run: nat, at: int)
    | Fail(run: nat)
    | MarkDirectly(eventId: string, ttl: int, at: int)

  /** The clock never runs backwards. */
  predicate Enabled(s: State, ev: Event) {
    match ev
    case Deliver(run, _, _, evictAt, checkAt) => run !in s.running && s.now <= evictAt <= checkAt
    case Finish(run, at) => run in s.running && s.now <= at
    case Fail(run) => run in s.running
    case MarkDirectly(_, _, at) => s.now <= at
  }

  function Step(s: State, ev: Event): State
    requires Enabled(s, ev)
  {
    match ev
    case Deliver(run, eventId, hasHandler, evictAt, checkAt) =>
      var evicted := s.(cache := Evicted(s.cache, evictAt), now := checkAt);
      if Fresh(evicted.cache, eventId, checkAt) then
        evicted.(duplicates := s.duplicates + [Delivery(eventId, checkAt, |s.successes|)])
      else if !hasHandler then evicted
      else evicted.(running := s.running[run := Delivery(eventId, checkAt, |s.successes|)])
    case Finish(run, at) =>
      var d := s.running[run];
      s.(cache := Marked(s.cache, d.eventId, at, DEFAULT_TTL_MS), now := at, running := s.running - {run},
         marks := s.marks + [Mark(d.eventId, at, DEFAULT_TTL_MS)],
         successes := s.successes + [Success(d, at)])
    case Fail(run) => s.(running := s.running - {run})
    case MarkDirectly(eventId, ttl, at) =>
      s.(cache := Marked(s.cache, eventId, at, ttl), now := at, marks := s.marks + [Mark(eventId, at, ttl)])
  }

  // ---------- Refinement of the full history ----------

  function LastMark(marks: seq<Mark>, eventId: string): Option<Mark> {
    if marks == [] then None
    else if marks[|marks| - 1].eventId == eventId then Some(marks[|marks| - 1])
    else LastMark(marks[..|marks| - 1], eventId)
  }

  /** By the history, does the last mark of the event still count? */
  predicate StillMarked(marks: seq<Mark>, eventId: string, now: int) {
    var last := LastMark(marks, eventId);
    last.Some? && last.value.at + last.value.ttl > now
  }

  /** The cache knows each last mark, unless it had expired before now. */
  predicate Agrees(s: State, eventId: string) {
    var last := LastMark(s.marks, eventId);
    if Key(eventId) in s.cache then last.Some? && s.cache[Key(eventId)].expiresAt == last.value.at + last.value.ttl
    else last.Some? ==> last.value.at + last.value.ttl < s.now
  }

  ghost predicate Refines(s: State) {
    forall id {:trigger Agrees(s, id)} :: Agrees(s, id)
  }

  lemma StepRefines(s: State, ev: Event)
    requires Refines(s) && Enabled(s, ev)
    ensures Refines(Step(s, ev))
  {
    var r := Step(s, ev);
    forall id ensures Agrees(r, id) {
      assert Agrees(s, id);
      if r.marks != s.marks {
        var m := r.marks[|s.marks|];
        assert r.marks[..|s.marks|] == s.marks;
        KeyInjective(id, m.eventId);
      }
    }
  }

  ghost predicate Run(states: seq<State>, events: seq<Event>) {
    && |states| == |events| + 1 && states[0] == INITIAL
    && forall i {:trigger events[i]} :: 0 <= i < |events| ==>
         Enabled(states[i], events[i]) && states[i + 1] == Step(states[i], events[i])
  }

  lemma {:induction false} RunRefines(states: seq<State>, events: seq<Event>, k: nat)
    requires Run(states, events) && k < |states|
    ensures Refines(states[k])
  {
    if k > 0 {
      RunRefines(states, events, k - 1);
      assert Enabled(states[k - 1], events[k - 1]);
      StepRefines(states[k - 1], events[k - 1]);
    }
  }

  /**
   At any point of any run, whatever was evicted before: a delivery is found to
   be a duplicate exactly when the last mark of its event still counts.
   */
  lemma DuplicateIffStillMarked(
      states: seq<State>, events: seq<Event>, k: nat, eventId: string, evictAt: int, checkAt: int)
    requires Run(states, events) && k < |states| && states[k].now <= evictAt <= checkAt
    ensures Fresh(Evicted(states[k].cache, evictAt), eventId, checkAt)
        <==> StillMarked(states[k].marks, eventId, checkAt)
  {
    RunRefines(states, events, k);
    assert Agrees(states[k], eventId);
  }

  // ---------- Handler runs ----------

  ghost predicate OnlyDeliveries(events: seq<Event>) {
    forall i :: 0 <= i < |events| ==> !events[i].MarkDirectly?
  }

  /** Each mark is the end of a successful run; times never decrease. */
  ghost predicate History(s: State) {
    && |s.marks| == |s.successes|
    && (forall i :: 0 <= i < |s.marks| ==>
          && s.marks[i] == Mark(s.successes[i].delivery.eventId, s.successes[i].end, DEFAULT_TTL_MS)
          && s.marks[i].at <= s.now)
    && (forall i, j :: 0 <= i <= j < |s.marks| ==> s.marks[i].at <= s.marks[j].at)
  }

  /** The last mark of an event is the latest one. */
  lemma {:induction false} LastMarkLatest(marks: seq<Mark>, eventId: string)
    requires forall i, j :: 0 <= i <= j < |marks| ==> marks[i].at <= marks[j].at
    ensures var last := LastMark(marks, eventId);
            && (last.Some? ==> last.value in marks && last.value.eventId == eventId)
            && forall i :: 0 <= i < |marks| && marks[i].eventId == eventId ==>
                 last.Some? && marks[i].at <= last.value.at
  {
    if marks != [] && marks[|marks| - 1].eventId != eventId {
      LastMarkLatest(marks[..|marks| - 1], eventId);
    }
  }

  /** A run let through after `i` runs had succeeded started a full TTL after each of them for its event. */
  ghost predicate Spaced(successes: seq<Success>, d: Delivery) {
    && d.after <= |successes|
    && forall i :: 0 <= i < d.after && successes[i].delivery.eventId == d.eventId
         ==> successes[i].end + DEFAULT_TTL_MS <= d.start
  }

  /** Some run for the event had succeeded within the TTL. */
  ghost predicate Covered(successes: seq<Success>, d: Delivery) {
    exists i :: 0 <= i < d.after <= |successes| && successes[i].delivery.eventId == d.eventId
             && successes[i].end <= d.start < successes[i].end + DEFAULT_TTL_MS
  }

  ghost predicate Inv(s: State) {
    && Refines(s) && History(s)
    && (forall r :: r in s.running ==> Spaced(s.successes, s.running[r]))
    && (forall i :: 0 <= i < |s.successes| ==> Spaced(s.successes, s.successes[i].delivery))
    && (forall i :: 0 <= i < |s.duplicates| ==> Covered(s.successes, s.duplicates[i]))
  }

  /** What letting a delivery through, or rejecting it, says about the runs so far. */
  lemma DeliverDecides(s: State, eventId: string, evictAt: int, checkAt: int)
    requires Refines(s) && History(s) && s.now <= evictAt <= checkAt
    ensures var d := Delivery(eventId, checkAt, |s.successes|);
            if Fresh(Evicted(s.cache, evictAt), eventId, checkAt) then Covered(s.successes, d)
            else Spaced(s.successes, d)
  {
    assert Agrees(s, eventId);
    LastMarkLatest(s.marks, eventId);
    var last := LastMark(s.marks, eventId);
    if Fresh(Evicted(s.cache, evictAt), eventId, checkAt) {
      var i :| 0 <= i < |s.marks| && s.marks[i] == last.value;
      assert s.successes[i].delivery.eventId == eventId;
    }
  }

  lemma MoreSuccesses(successes: seq<Success>, more: Success, d: Delivery)
    ensures Spaced(successes, d) ==> Spaced(successes + [more], d)
    ensures Covered(successes, d) ==> Covered(successes + [more], d)
  {
    if Covered(successes, d) {
      var k :| 0 <= k < d.after <= |successes| && successes[k].delivery.eventId == d.eventId
             && successes[k].end <= d.start < successes[k].end + DEFAULT_TTL_MS;
      assert (successes + [more])[k] == successes[k];
    }
  }

  lemma FinishKeepsInv(s: State, run: nat, at: int)
    requires Inv(s) && Enabled(s, Finish(run, at))
    ensures Inv(Step(s, Finish(run, at)))
  {
    StepRefines(s, Finish(run, at));
    var r := Step(s, Finish(run, at));
    var more := Success(s.running[run], at);
    forall q | q in r.running ensures Spaced(r.successes, r.running[q]) {
      MoreSuccesses(s.successes, more, s.running[q]);
    }
    forall i | 0 <= i < |r.successes| ensures Spaced(r.successes, r.successes[i].delivery) {
      assert r.successes[i] == if i < |s.successes| then s.successes[i] else more;
      MoreSuccesses(s.successes, more, r.successes[i].delivery);
    }
    forall i | 0 <= i < |r.duplicates| ensures Covered(r.successes, r.duplicates[i]) {
      MoreSuccesses(s.successes, more, s.duplicates[i]);
    }
  }

  lemma StepKeepsInv(s: State, ev: Event)
    requires Inv(s) && Enabled(s, ev) && !ev.MarkDirectly?
    ensures Inv(Step(s, ev))
  {
    if ev.Finish? {
      FinishKeepsInv(s, ev.run, ev.at);
    } else {
      StepRefines(s, ev);
      if ev.Deliver? {
        DeliverDecides(s, ev.eventId, ev.evictAt, ev.checkAt);
      }
    }
  }

  lemma {:induction false} RunKeepsInv(states: seq<State>, events: seq<Event>, k: nat)
    requires Run(states, events) && OnlyDeliveries(events) && k < |states|
    ensures Inv(states[k])
  {
    if k > 0 {
      RunKeepsInv(states, events, k - 1);
      assert Enabled(states[k - 1], events[k - 1]);
      StepKeepsInv(states[k - 1], events[k - 1]);
    }
  }

  /**
   In every interleaving: a delivery is called a duplicate only when a run for
   its event had succeeded within the TTL; and two successful runs for one
   event that do not overlap are at least a TTL apart.
   */
  lemma ProcessedOncePerTtl(states: seq<State>, events: seq<Event>, k: nat)
    requires Run(states, events) && OnlyDeliveries(events) && k < |states|
    ensures var s := states[k];
            && (forall i :: 0 <= i < |s.duplicates| ==> Covered(s.successes, s.duplicates[i]))
            && (forall i, j :: 0 <= i < |s.successes| && 0 <= j < |s.successes|
                  && i < s.successes[j].delivery.after
                  && s.successes[i].delivery.eventId == s.successes[j].delivery.eventId
                  ==> s.successes[i].end + DEFAULT_TTL_MS <= s.successes[j].delivery.start)
  {
    RunKeepsInv(states, events, k);
    var s := states[k];
    forall i, j | 0 <= i < |s.successes| && 0 <= j < |s.successes| && i < s.successes[j].delivery.after
        && s.successes[i].delivery.eventId == s.successes[j].delivery.eventId
      ensures s.successes[i].end + DEFAULT_TTL_MS <= s.successes[j].delivery.start
    {
      assert Spaced(s.successes, s.successes[j].delivery);
    }
  }

  /**
   A second delivery of an event that is being handled is handled too exactly
   when no earlier mark still counts; once the first run has succeeded, exactly
   when that is a full TTL ago.
   */
  lemma OverlapIff(s: State, run: nat, other: nat, at: int, evictAt: int, checkAt: int)
    requires Refines(s) && run in s.running && other !in s.running && s.now <= at <= evictAt <= checkAt
    ensures var id := s.running[run].eventId;
            && (other in Step(s, Deliver(other, id, true, evictAt, checkAt)).running
                <==> !StillMarked(s.marks, id, checkAt))
            && (other in Step(Step(s, Finish(run, at)), Deliver(other, id, true, evictAt, checkAt)).running
                <==> at + DEFAULT_TTL_MS <= checkAt)
  {
    var id := s.running[run].eventId;
    assert Agrees(s, id);
    var done := Step(s, Finish(run, at));
    StepRefines(s, Finish(run, at));
    assert Agrees(done, id);
    assert done.marks[..|s.marks|] == s.marks;
  }

  /** Overlapping deliveries of one event are both processed. */
  lemma OverlapProcessesTwice(eventId: string)
    ensures var one := Step(INITIAL, Deliver(0, eventId, true, 0, 0));
            Enabled(one, Deliver(1, eventId, true, 1, 1))
    ensures var two := Step(Step(INITIAL, Deliver(0, eventId, true, 0, 0)), Deliver(1, eventId, true, 1, 1));
            && two.running.Keys == {0, 1} && two.now <= 2
            && var done := Step(Step(two, Finish(0, 2)), Finish(1, 3));
               done.successes == [Success(Delivery(eventId, 0, 0), 2), Success(Delivery(eventId, 1, 0), 3)]
  {
  }

  /** With any two clock readings, eviction changes the answer exactly for a mark that expires between them. */
  lemma EvictionForgetsIff(cache: Cache, eventId: string, evictAt: int, checkAt: int)
    ensures (Fresh(Evicted(cache, evictAt), eventId, checkAt) <==> Fresh(cache, eventId, checkAt))
        <==> !(Key(eventId) in cache && checkAt < cache[Key(eventId)].expiresAt < evictAt)
  {
  }

  /** A clock that runs backwards between the two readings can lose a mark that still counts. */
  lemma BackwardClockForgets(eventId: string)
    ensures var cache := Marked(map[], eventId, 0, 10);
            && cache[Key(eventId)].expiresAt > 5
            && !Fresh(Evicted(cache, 11), eventId, 5)
  {
  }
}
