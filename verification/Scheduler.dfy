/**
 The priority scheduler of crates/scheduler: a binary heap in an array, ordered
 by earliest time and then by highest priority, refined to a multiset of jobs.
 */
module Scheduler {
  import opened Wrappers

  datatype Priority = Low | Normal | High | Critical

  function Rank(p: Priority): nat {
    match p case Low => 0 case Normal => 1 case High => 2 case Critical => 3
  }

  datatype Job = Job(id: string, queue: string, payload: string, runAt: int, priority: Priority,
                     attempt: nat, maxAttempts: nat, tenantId: string, traceId: string)

  datatype Ordering = Less | Equal | Greater

  function Compare(x: int, y: int): Ordering {
    if x < y then Less else if x == y then Equal else Greater
  }

  /** `HeapEntry::cmp`: the time comparison is reversed, the priority comparison is not. */
  function EntryCmp(a: Job, b: Job): Ordering {
    var byTime := Compare(b.runAt, a.runAt);
    if byTime == Equal then Compare(Rank(a.priority), Rank(b.priority)) else byTime
  }

  /** May `a` come out before `b`? */
  predicate Before(a: Job, b: Job) {
    EntryCmp(a, b) != Less
  }

  predicate AtLeast(p: Priority, q: Priority) {
    || p == q || p == Critical || q == Low
    || (p == High && q == Normal)
  }

  /** A later entry never sorts as greater: earliest time first; then critical, high, normal and low. */
  lemma BeforeMeans(a: Job, b: Job)
    ensures Before(a, b) <==> a.runAt < b.runAt || (a.runAt == b.runAt && AtLeast(a.priority, b.priority))
  {
  }

  ghost predicate Sorted(s: seq<Job>) {
    forall i, j :: 0 <= i < j < |s| ==> Before(s[i], s[j])
  }

  // ---------- The heap ----------

  function Parent(i: nat): nat
    requires i > 0
  {
    (i - 1) / 2
  }

  ghost predicate IsHeap(s: seq<Job>) {
    forall i {:trigger s[i]} :: 0 < i < |s| ==> Before(s[Parent(i)], s[i])
  }

  /** The root of a heap comes before everything in it. */
  lemma {:induction false} RootFirst(s: seq<Job>, i: nat)
    requires IsHeap(s) && i < |s|
    ensures Before(s[0], s[i])
  {
    if i > 0 {
      RootFirst(s, Parent(i));
    }
  }

  ghost predicate HeapExceptUp(s: seq<Job>, k: nat) {
    && (forall i {:trigger s[i]} :: 0 < i < |s| && i != k ==> Before(s[Parent(i)], s[i]))
    && (forall i {:trigger s[i]} :: 0 < i < |s| && k > 0 && Parent(i) == k ==> Before(s[Parent(k)], s[i]))
  }

  ghost predicate HeapExceptDown(s: seq<Job>, k: nat) {
    && (forall i {:trigger s[i]} :: 0 < i < |s| && Parent(i) != k ==> Before(s[Parent(i)], s[i]))
    && (forall i {:trigger s[i]} :: 0 < i < |s| && k > 0 && Parent(i) == k ==> Before(s[Parent(k)], s[i]))
  }

  function Swap(s: seq<Job>, i: nat, j: nat): (r: seq<Job>)
    requires i < |s| && j < |s|
    ensures multiset(r) == multiset(s)
  {
    s[i := s[j]][j := s[i]]
  }

  lemma SwapUp(s: seq<Job>, k: nat)
    requires 0 < k < |s| && HeapExceptUp(s, k) && !Before(s[Parent(k)], s[k])
    ensures HeapExceptUp(Swap(s, k, Parent(k)), Parent(k))
  {
    var p := Parent(k);
    var t := Swap(s, k, p);
    assert t[p] == s[k] && t[k] == s[p];
    forall i | 0 < i < |t| && i != p ensures Before(t[Parent(i)], t[i]) {
      SwapUpAt(s, k, i);
    }
    forall i | 0 < i < |t| && p > 0 && Parent(i) == p ensures Before(t[Parent(p)], t[i]) {
      assert Before(s[Parent(p)], s[p]);
      assert i == k || Before(s[p], s[i]);
    }
  }

  lemma SwapUpAt(s: seq<Job>, k: nat, i: nat)
    requires 0 < k < |s| && HeapExceptUp(s, k) && !Before(s[Parent(k)], s[k])
    requires 0 < i < |s| && i != Parent(k)
    ensures var t := Swap(s, k, Parent(k)); Before(t[Parent(i)], t[i])
  {
    if i != k {
      assert Before(s[Parent(i)], s[i]);
    }
  }

  /** `c` is a child of `k` that comes before its sibling. */
  ghost predicate FirstChild(s: seq<Job>, k: nat, c: nat) {
    && 0 < c < |s| && Parent(c) == k
    && forall i {:trigger s[i]} :: 0 < i < |s| && Parent(i) == k ==> Before(s[c], s[i])
  }

  lemma SwapDown(s: seq<Job>, k: nat, c: nat)
    requires k < |s| && HeapExceptDown(s, k) && FirstChild(s, k, c) && !Before(s[k], s[c])
    ensures HeapExceptDown(Swap(s, k, c), c)
  {
    var t := Swap(s, k, c);
    forall i | 0 < i < |t| && Parent(i) != c ensures Before(t[Parent(i)], t[i]) {
      if i == k {
        assert Before(s[Parent(k)], s[c]);
      } else if Parent(i) == k {
        assert Before(s[c], s[i]);
      } else {
        assert Before(s[Parent(i)], s[i]);
      }
    }
    forall i | 0 < i < |t| && Parent(i) == c ensures Before(t[Parent(c)], t[i]) {
      assert Before(s[Parent(i)], s[i]);
    }
  }

  /** The last entry moved to the root leaves a heap except at the root. */
  lemma MoveLastToRoot(s: seq<Job>)
    requires IsHeap(s) && |s| > 1
    ensures HeapExceptDown(s[..|s| - 1][0 := s[|s| - 1]], 0)
  {
    var t := s[..|s| - 1][0 := s[|s| - 1]];
    forall i | 0 < i < |t| && Parent(i) != 0 ensures Before(t[Parent(i)], t[i]) {
      assert Before(s[Parent(i)], s[i]);
    }
  }

  lemma MoveLastToRootKeeps(s: seq<Job>)
    requires |s| > 1
    ensures multiset(s) == multiset(s[..|s| - 1][0 := s[|s| - 1]]) + multiset{s[0]}
  {
    assert s == s[..|s| - 1] + [s[|s| - 1]];
  }

  // ---------- The scheduler ----------

  class Scheduler {
    const capacity: nat
    const jobs: array<Job>
    var count: nat

    ghost predicate Shape()
      reads this
    {
      jobs.Length == capacity && count <= capacity
    }

    ghost function Heap(): (s: seq<Job>)
      requires Shape()
      reads this, jobs
      ensures |s| == count
    {
      jobs[..count]
    }

    ghost predicate Valid()
      reads this, jobs
    {
      Shape() && IsHeap(Heap())
    }

    constructor (capacity: nat)
      ensures Valid() && fresh(jobs) && this.capacity == capacity && Heap() == []
    {
      this.capacity := capacity;
      jobs := new Job[capacity];
      count := 0;
    }

    /** Accepts the job unless the scheduler is full. */
    method Schedule(job: Job) returns (ok: bool)
      requires Valid()
      modifies this, jobs
      ensures Valid()
      ensures ok <==> |old(Heap())| < capacity
      ensures multiset(Heap()) == multiset(old(Heap())) + if ok then multiset{job} else multiset{}
      ensures Step(capacity, multiset(old(Heap())), Scheduled(job, ok), multiset(Heap()))
    {
      if count >= capacity {
        return false;
      }
      ghost var before := Heap();
      jobs[count] := job;
      count := count + 1;
      assert Heap() == before + [job];
      assert HeapExceptUp(Heap(), count - 1) by {
        forall i | 0 < i < count - 1 ensures Before(Heap()[Parent(i)], Heap()[i]) {
          assert Before(before[Parent(i)], before[i]);
        }
      }
      SiftUp(count - 1);
      return true;
    }

    method SwapEntries(i: nat, j: nat)
      requires Shape() && i < count && j < count
      modifies jobs
      ensures Heap() == Swap(old(Heap()), i, j)
    {
      jobs[i], jobs[j] := jobs[j], jobs[i];
    }

    method SiftUp(start: nat)
      requires Shape() && start < count && HeapExceptUp(Heap(), start)
      modifies jobs
      ensures IsHeap(Heap()) && multiset(Heap()) == multiset(old(Heap()))
    {
      var k: nat := start;
      while k > 0 && !Before(jobs[Parent(k)], jobs[k])
        invariant 0 <= k < count && HeapExceptUp(Heap(), k)
        invariant multiset(Heap()) == multiset(old(Heap()))
      {
        SwapUp(Heap(), k);
        SwapEntries(k, Parent(k));
        k := Parent(k);
      }
    }

    method SelectChild(k: nat) returns (c: nat)
      requires Shape() && 2 * k + 1 < count
      ensures FirstChild(Heap(), k, c)
    {
      c := 2 * k + 1;
      if c + 1 < count && !Before(jobs[c], jobs[c + 1]) {
        c := c + 1;
      }
      ghost var s := Heap();
      forall i | 0 < i < |s| && Parent(i) == k ensures Before(s[c], s[i]) {
        assert i == 2 * k + 1 || i == 2 * k + 2;
      }
    }

    method SiftDown(start: nat)
      requires Shape() && start < count && HeapExceptDown(Heap(), start)
      modifies jobs
      ensures IsHeap(Heap()) && multiset(Heap()) == multiset(old(Heap()))
    {
      var k := start;
      while 2 * k + 1 < count
        invariant k < count && HeapExceptDown(Heap(), k)
        invariant multiset(Heap()) == multiset(old(Heap()))
        decreases count - k
      {
        var c := SelectChild(k);
        if Before(jobs[k], jobs[c]) {
          forall i | 0 < i < count ensures Before(Heap()[Parent(i)], Heap()[i]) {
            if Parent(i) == k {
              assert Before(Heap()[c], Heap()[i]);
            }
          }
          return;
        }
        SwapDown(Heap(), k, c);
        SwapEntries(k, c);
        k := c;
      }
    }

    method Pop() returns (job: Job)
      requires Valid() && count > 0
      modifies this, jobs
      ensures Valid() && count == old(count) - 1
      ensures job == old(Heap())[0]
      ensures multiset(old(Heap())) == multiset(Heap()) + multiset{job}
    {
      job := jobs[0];
      ghost var before := Heap();
      if count == 1 {
        count := 0;
        assert before == [job];
        return;
      }
      MoveLastToRoot(before);
      MoveLastToRootKeeps(before);
      jobs[0] := jobs[count - 1];
      count := count - 1;
      assert Heap() == before[..count][0 := before[count]];
      SiftDown(0);
    }

    /** Removes exactly the due jobs and returns them in order. */
    method Poll(now: int) returns (ready: seq<Job>)
      requires Valid()
      modifies this, jobs
      ensures Valid()
      ensures Sorted(ready)
      ensures AllDue(ready, now)
      ensures forall j :: j in Heap() ==> j.runAt > now
      ensures multiset(old(Heap())) == multiset(ready) + multiset(Heap())
      ensures Step(capacity, multiset(old(Heap())), Polled(now, ready), multiset(Heap()))
    {
      ready := [];
      while count > 0 && jobs[0].runAt <= now
        invariant Valid()
        invariant Sorted(ready) && AllDue(ready, now) && AllBefore(ready, Heap())
        invariant multiset(old(Heap())) == multiset(ready) + multiset(Heap())
        decreases count
      {
        ghost var before := Heap();
        var job := Pop();
        TakeStep(ready, before, Heap(), now);
        ready := ready + [job];
      }
      if count > 0 {
        RootFirstOfAll(Heap());
      }
    }

    /** The earliest time of any stored job. */
    method NextRunAt() returns (at: Option<int>)
      requires Valid()
      ensures at.None? <==> Heap() == []
      ensures at.Some? ==> exists j :: j in Heap() && j.runAt == at.value
      ensures at.Some? ==> forall j :: j in Heap() ==> at.value <= j.runAt
    {
      if count == 0 {
        return None;
      }
      RootFirstOfAll(Heap());
      assert Heap()[0] in Heap();
      at := Some(jobs[0].runAt);
    }
  }

  ghost predicate AllDue(ready: seq<Job>, now: int) {
    forall j :: j in ready ==> j.runAt <= now
  }

  ghost predicate AllBefore(ready: seq<Job>, rest: seq<Job>) {
    forall i, j :: 0 <= i < |ready| && j in rest ==> Before(ready[i], j)
  }

  /** Taking the root after `ready` keeps the jobs taken in order and before the rest. */
  lemma TakeStep(ready: seq<Job>, before: seq<Job>, after: seq<Job>, now: int)
    requires IsHeap(before) && before != [] && before[0].runAt <= now
    requires multiset(before) == multiset(after) + multiset{before[0]}
    requires Sorted(ready) && AllDue(ready, now) && AllBefore(ready, before)
    ensures Sorted(ready + [before[0]]) && AllDue(ready + [before[0]], now) && AllBefore(ready + [before[0]], after)
    ensures multiset(ready + [before[0]]) == multiset(ready) + multiset{before[0]}
  {
    RootFirstOfAll(before);
    forall j | j in after ensures j in before {
      assert j in multiset(after);
      assert j in multiset(before);
    }
    assert before[0] in before;
  }

  lemma RootFirstOfAll(s: seq<Job>)
    requires IsHeap(s) && s != []
    ensures forall j :: j in s ==> Before(s[0], j)
  {
    forall i | 0 <= i < |s| ensures Before(s[0], s[i]) {
      RootFirst(s, i);
    }
  }

  // ---------- Runs ----------

  /** One call and what it returned. */
  datatype Event = Scheduled(job: Job, accepted: bool) | Polled(now: int, ready: seq<Job>)

  /** What a call may do to the stored jobs. */
  ghost predicate Step(capacity: nat, before: multiset<Job>, e: Event, after: multiset<Job>) {
    match e
    case Scheduled(job, accepted) =>
      && (accepted <==> |before| < capacity)
      && after == before + if accepted then multiset{job} else multiset{}
    case Polled(now, ready) =>
      && Sorted(ready) && AllDue(ready, now)
      && (forall j :: j in after ==> j.runAt > now)
      && before == multiset(ready) + after
  }

  /** A run from the empty scheduler; `states[k]` is stored before the `k`-th call. */
  ghost predicate Run(capacity: nat, states: seq<multiset<Job>>, events: seq<Event>) {
    && |states| == |events| + 1 && states[0] == multiset{}
    && forall k {:trigger events[k]} :: 0 <= k < |events| ==> Step(capacity, states[k], events[k], states[k + 1])
  }

  predicate Reaches(e: Event, j: Job) {
    e.Polled? && j.runAt <= e.now
  }

  /** Copies of `j` accepted since the last poll that reached its time. */
  function Waiting(events: seq<Event>, j: Job): nat {
    if events == [] then 0
    else
      var e, earlier := events[|events| - 1], events[..|events| - 1];
      if Reaches(e, j) then 0
      else Waiting(earlier, j) + if e == Scheduled(j, true) then 1 else 0
  }

  /** What one call does to the copies of one job. */
  lemma StepCounts(capacity: nat, before: multiset<Job>, e: Event, after: multiset<Job>, j: Job)
    requires Step(capacity, before, e, after) && |before| <= capacity
    ensures |after| <= capacity
    ensures after[j] == if Reaches(e, j) then 0 else before[j] + if e == Scheduled(j, true) then 1 else 0
    ensures e.Polled? ==> multiset(e.ready)[j] == if Reaches(e, j) then before[j] else 0
  {
    if e.Polled? {
      assert after[j] == 0 || j in after;
      assert multiset(e.ready)[j] == 0 || j in e.ready;
    }
  }

  lemma {:induction false} StoredAreWaiting(
      capacity: nat, states: seq<multiset<Job>>, events: seq<Event>, j: Job, k: nat)
    requires Run(capacity, states, events) && k <= |events|
    ensures |states[k]| <= capacity && states[k][j] == Waiting(events[..k], j)
  {
    if k > 0 {
      StoredAreWaiting(capacity, states, events, j, k - 1);
      assert events[..k][..k - 1] == events[..k - 1];
      StepCounts(capacity, states[k - 1], events[k - 1], states[k], j);
    }
  }

  /**
   At every point of every run the stored copies of a job are those accepted
   since a poll last reached it; a poll that reaches its time returns exactly
   those copies, and any other poll returns none.
   */
  lemma PollReturnsWaiting(capacity: nat, states: seq<multiset<Job>>, events: seq<Event>, j: Job)
    requires Run(capacity, states, events)
    ensures forall k :: 0 <= k <= |events| ==> |states[k]| <= capacity && states[k][j] == Waiting(events[..k], j)
    ensures forall k :: 0 <= k < |events| && events[k].Polled?
              ==> multiset(events[k].ready)[j] == if Reaches(events[k], j) then Waiting(events[..k], j) else 0
  {
    forall k | 0 <= k <= |events| ensures |states[k]| <= capacity && states[k][j] == Waiting(events[..k], j) {
      StoredAreWaiting(capacity, states, events, j, k);
    }
    forall k | 0 <= k < |events| && events[k].Polled?
      ensures multiset(events[k].ready)[j] == if Reaches(events[k], j) then Waiting(events[..k], j) else 0
    {
      StepCounts(capacity, states[k], events[k], states[k + 1], j);
    }
  }

  /** `k` is the first poll after `a` to reach the job's time. */
  ghost predicate FirstToReach(events: seq<Event>, a: nat, j: Job, k: nat) {
    && a < k < |events| && Reaches(events[k], j)
    && forall m :: a < m < k ==> !Reaches(events[m], j)
  }

  /** The `a`-th event is the only one that accepts the job. */
  ghost predicate AcceptedOnce(events: seq<Event>, a: nat, j: Job) {
    forall m :: 0 <= m < |events| ==> (events[m] == Scheduled(j, true) <==> m == a)
  }

  lemma {:induction false} WaitingOnce(events: seq<Event>, a: nat, j: Job)
    requires AcceptedOnce(events, a, j)
    ensures Waiting(events, j)
         == if a < |events| && forall m :: a < m < |events| ==> !Reaches(events[m], j) then 1 else 0
  {
    if events != [] {
      var n := |events| - 1;
      WaitingOnce(events[..n], a, j);
      if a < n && forall m :: a < m < |events| ==> !Reaches(events[m], j) {
        forall m | a < m < n ensures !Reaches(events[..n][m], j) {
          assert !Reaches(events[m], j);
        }
      }
      if m :| a < m < n && Reaches(events[m], j) {
        assert Reaches(events[..n][m], j);
      }
    }
  }

  lemma FirstOfReached(events: seq<Event>, a: nat, j: Job, k: nat)
    requires k < |events| && AcceptedOnce(events, a, j) && Reaches(events[k], j)
    ensures Waiting(events[..k], j) == if FirstToReach(events, a, j, k) then 1 else 0
  {
    var earlier := events[..k];
    assert forall m :: 0 <= m < k ==> earlier[m] == events[m];
    WaitingOnce(earlier, a, j);
  }

  /** A job accepted once comes out exactly once: at the first later poll that reaches its time. */
  lemma AcceptedOnceReturnedOnce(capacity: nat, states: seq<multiset<Job>>, events: seq<Event>, a: nat, j: Job)
    requires Run(capacity, states, events) && AcceptedOnce(events, a, j)
    ensures forall k :: 0 <= k < |events| && events[k].Polled?
              ==> multiset(events[k].ready)[j] == if FirstToReach(events, a, j, k) then 1 else 0
  {
    PollReturnsWaiting(capacity, states, events, j);
    forall k | 0 <= k < |events| && events[k].Polled?
      ensures multiset(events[k].ready)[j] == if FirstToReach(events, a, j, k) then 1 else 0
    {
      if Reaches(events[k], j) {
        FirstOfReached(events, a, j, k);
      }
    }
  }

  // ---------- Backoff ----------

  function Pow2(n: nat): nat {
    if n == 0 then 1 else 2 * Pow2(n - 1)
  }

  function Min(a: nat, b: nat): nat {
    if a < b then a else b
  }

  function BackoffSeconds(attempt: nat): nat {
    Min(Pow2(Min(attempt, 12)), 3600)
  }

  lemma {:induction false} Pow2Grows(n: nat)
    requires n >= 12
    ensures Pow2(n) >= 4096
  {
    if n > 12 {
      Pow2Grows(n - 1);
    } else {
      assert Pow2(6) == 64;
      assert Pow2(12) == 64 * Pow2(6);
    }
  }

  /** Clamping the exponent never shows: the delay is 2^attempt seconds, capped at one hour. */
  lemma BackoffIsCappedPower(attempt: nat)
    ensures BackoffSeconds(attempt) == Min(Pow2(attempt), 3600)
  {
    if attempt > 12 {
      Pow2Grows(attempt);
      Pow2Grows(12);
    }
  }
}
