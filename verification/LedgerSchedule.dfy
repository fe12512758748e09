/**
 Which schedules of overlapping `write` calls leave one chain: exactly those in
 which every entry pushed belongs to a call that read the tip of the last push.
 */
module LedgerSchedule {
  import opened Ledger

  /** An entry joins a chain exactly when it refers to its end. */
  lemma ChainGrowsIff(env: Env, log: seq<Entry>, e: Entry)
    requires Verify(env, e)
    ensures OneChain(env, log + [e]) <==> OneChain(env, log) && e.previousHash == EndHash(log)
  {
    var longer := log + [e];
    if OneChain(env, longer) {
      ChainSlice(env, longer, 0, |log|);
      assert longer[0..|log|] == log;
      if log != [] {
        assert Linked(longer, |log|);
        assert longer[0] == log[0];
      }
    } else if OneChain(env, log) && e.previousHash == EndHash(log) {
      ChainGrows(env, log, e);
    }
  }

  /** The event pushes an entry. */
  predicate Pushes(s: State, e: Event) {
    e.Push? && e.writer in s.writers && s.writers[e.writer].Holding? && |s.ring| < RING_BUFFER_CAPACITY
  }

  /**
   Where in the log things stand, told by the schedule alone: after how many
   pushes the tip was set, and each call read it or pushed its own entry.
   */
  datatype Positions = Positions(tip: nat, calls: map<nat, nat>)

  function Track(env: Env, s: State, ps: Positions, e: Event): Positions {
    match e
    case ReadTip(w, fields, _) =>
      if w in s.writers || !env.validAmount(fields.amount) then ps else ps.(calls := ps.calls[w := ps.tip])
    case Push(w) =>
      if Pushes(s, e) then ps.(calls := ps.calls[w := |s.pushed| + 1]) else ps
    case SetTip(w) =>
      if w in s.writers && s.writers[w].Pushed? && w in ps.calls then ps.(tip := ps.calls[w]) else ps
    case Pop(_) => ps
  }

  function PositionsAt(env: Env, events: seq<Event>): Positions {
    if events == [] then Positions(0, map[])
    else Track(env, Exec(env, events[..|events| - 1]), PositionsAt(env, events[..|events| - 1]), events[|events| - 1])
  }

  /** Tip, held entries and pushed hashes are those of the log at their positions. */
  predicate Placed(s: State, ps: Positions) {
    && ps.tip <= |s.pushed| && s.tip == EndHash(s.pushed[..ps.tip])
    && forall w :: w in s.writers ==> PlacedAt(s, ps, w)
  }

  predicate PlacedAt(s: State, ps: Positions, w: nat)
    requires w in s.writers
  {
    && w in ps.calls && ps.calls[w] <= |s.pushed|
    && EndHash(s.pushed[..ps.calls[w]])
       == match s.writers[w] case Holding(e) => e.previousHash case Pushed(h) => h
  }

  lemma StepPlaced(env: Env, s: State, ps: Positions, e: Event)
    requires Placed(s, ps)
    ensures Placed(Step(env, s, e), Track(env, s, ps, e))
  {
    var t, qs := Step(env, s, e), Track(env, s, ps, e);
    if Pushes(s, e) {
      PrefixOf(s.pushed, s.writers[e.writer].entry, ps.tip);
    }
    forall w | w in t.writers ensures PlacedAt(t, qs, w) {
      if w in s.writers {
        assert PlacedAt(s, ps, w);
        if Pushes(s, e) {
          PrefixOf(s.pushed, s.writers[e.writer].entry, ps.calls[w]);
          assert (s.pushed + [s.writers[e.writer].entry])[..|s.pushed| + 1] == t.pushed;
        }
      }
    }
    if e.SetTip? && e.writer in s.writers {
      assert PlacedAt(s, ps, e.writer);
    }
  }

  lemma PrefixOf(log: seq<Entry>, e: Entry, n: nat)
    requires n <= |log|
    ensures (log + [e])[..n] == log[..n]
  {
  }

  lemma {:induction false} RunPlaced(env: Env, events: seq<Event>)
    ensures Placed(Exec(env, events), PositionsAt(env, events))
  {
    if events != [] {
      var before := events[..|events| - 1];
      RunPlaced(env, before);
      StepPlaced(env, Exec(env, before), PositionsAt(env, before), events[|events| - 1]);
    }
  }

  /** If the `k`-th event pushes an entry, nothing was pushed since the tip its call read was pushed. */
  predicate Current(env: Env, events: seq<Event>, k: nat)
    requires k < |events|
  {
    var s, ps := Exec(env, events[..k]), PositionsAt(env, events[..k]);
    Pushes(s, events[k]) ==> events[k].writer in ps.calls && ps.calls[events[k].writer] == |s.pushed|
  }

  /** A condition on the schedule of reads, pushes and tip updates, not on what is hashed. */
  ghost predicate AllCurrent(env: Env, events: seq<Event>) {
    forall k {:trigger Current(env, events, k)} :: 0 <= k < |events| ==> Current(env, events, k)
  }

  lemma CurrentPrefix(env: Env, events: seq<Event>, n: nat, k: nat)
    requires k < n <= |events|
    ensures Current(env, events[..n], k) <==> Current(env, events, k)
  {
    assert events[..n][..k] == events[..k];
  }

  lemma AllCurrentMore(env: Env, events: seq<Event>)
    requires events != []
    ensures AllCurrent(env, events)
        <==> AllCurrent(env, events[..|events| - 1]) && Current(env, events, |events| - 1)
  {
    var n := |events| - 1;
    forall k | 0 <= k < n ensures Current(env, events[..n], k) <==> Current(env, events, k) {
      CurrentPrefix(env, events, n, k);
    }
  }

  /** No two prefixes of the log, the empty one included, end in the same hash. */
  ghost predicate DistinctEnds(log: seq<Entry>) {
    forall m, n :: 0 <= m < n <= |log| ==> EndHash(log[..m]) != EndHash(log[..n])
  }

  lemma DistinctBefore(log: seq<Entry>, e: Entry)
    requires DistinctEnds(log + [e])
    ensures DistinctEnds(log)
  {
    forall m, n | 0 <= m < n <= |log| ensures EndHash(log[..m]) != EndHash(log[..n]) {
      PrefixOf(log, e, m);
      PrefixOf(log, e, n);
    }
  }

  /** One event: a push keeps one chain when it is current, and only then if ends are distinct. */
  lemma StepChain(env: Env, s: State, ps: Positions, e: Event)
    requires Inv(env, s) && Placed(s, ps)
    ensures var current := Pushes(s, e) ==> e.writer in ps.calls && ps.calls[e.writer] == |s.pushed|;
            && (OneChain(env, s.pushed) && current ==> OneChain(env, Step(env, s, e).pushed))
            && (OneChain(env, Step(env, s, e).pushed) ==> OneChain(env, s.pushed))
            && (OneChain(env, Step(env, s, e).pushed) && DistinctEnds(s.pushed) ==> current)
  {
    if Pushes(s, e) {
      var entry := s.writers[e.writer].entry;
      ChainGrowsIff(env, s.pushed, entry);
      assert PlacedAt(s, ps, e.writer);
      assert s.pushed[..|s.pushed|] == s.pushed;
    }
  }

  /** Whatever the hashes, a schedule whose pushes are all current gives one chain. */
  lemma {:induction false} CurrentPushesChain(env: Env, events: seq<Event>)
    requires AllCurrent(env, events)
    ensures OneChain(env, Exec(env, events).pushed)
  {
    if events != [] {
      var before := events[..|events| - 1];
      AllCurrentMore(env, events);
      CurrentPushesChain(env, before);
      EveryInterleaving(env, before);
      RunPlaced(env, before);
      StepChain(env, Exec(env, before), PositionsAt(env, before), events[|events| - 1]);
    }
  }

  lemma PushedBefore(env: Env, s: State, e: Event)
    requires DistinctEnds(Step(env, s, e).pushed)
    ensures DistinctEnds(s.pushed)
  {
    if Pushes(s, e) {
      DistinctBefore(s.pushed, s.writers[e.writer].entry);
    }
  }

  /**
   In every interleaving whose log does not repeat a hash, the pushed entries
   form one chain exactly when every push is of a call that read the tip after
   the last push had set it.
   */
  lemma {:induction false} OneChainIffCurrent(env: Env, events: seq<Event>)
    requires DistinctEnds(Exec(env, events).pushed)
    ensures OneChain(env, Exec(env, events).pushed) <==> AllCurrent(env, events)
  {
    if events != [] {
      var before := events[..|events| - 1];
      PushedBefore(env, Exec(env, before), events[|events| - 1]);
      OneChainIffCurrent(env, before);
      EveryInterleaving(env, before);
      RunPlaced(env, before);
      StepChain(env, Exec(env, before), PositionsAt(env, before), events[|events| - 1]);
      AllCurrentMore(env, events);
    }
  }

  /** Both writers read the tip before either sets it. */
  function OverlappingStart(f: Fields, g: Fields, timestamp: nat): seq<Event> {
    [ReadTip(0, f, timestamp)] + [ReadTip(1, g, timestamp)] + [Push(0)] + [Push(1)]
  }

  lemma OverlappingPushes(env: Env, f: Fields, g: Fields, timestamp: nat)
    requires env.validAmount(f.amount) && env.validAmount(g.amount)
    ensures var x, y := NewEntry(env, f, timestamp, GENESIS), NewEntry(env, g, timestamp, GENESIS);
            Exec(env, OverlappingStart(f, g, timestamp))
            == State([x, y], GENESIS, map[0 := Pushed(x.hash), 1 := Pushed(y.hash)], [x, y], [])
  {
    var x, y := NewEntry(env, f, timestamp, GENESIS), NewEntry(env, g, timestamp, GENESIS);
    var e1 := [ReadTip(0, f, timestamp)];
    var e2 := e1 + [ReadTip(1, g, timestamp)];
    var e3 := e2 + [Push(0)];
    ExecOne(env, [], ReadTip(0, f, timestamp));
    assert [] + e1 == e1;
    assert Exec(env, e1) == State([], GENESIS, map[0 := Holding(x)], [], []);
    ExecOne(env, e1, ReadTip(1, g, timestamp));
    assert Exec(env, e2) == State([], GENESIS, map[0 := Holding(x), 1 := Holding(y)], [], []);
    ExecOne(env, e2, Push(0));
    assert Exec(env, e3) == State([x], GENESIS, map[0 := Pushed(x.hash), 1 := Holding(y)], [x], []);
    ExecOne(env, e3, Push(1));
  }

  /** Two overlapping calls fork the chain: both entries follow GENESIS. */
  lemma OverlapForks(env: Env, f: Fields, g: Fields, timestamp: nat)
    requires env.validAmount(f.amount) && env.validAmount(g.amount)
    requires env.digest(Payload(GENESIS, f, timestamp)) != GENESIS
    ensures var s := Exec(env, OverlappingStart(f, g, timestamp) + [SetTip(0)] + [SetTip(1)]);
            && |s.pushed| == 2 && s.writers == map[]
            && s.pushed[0].previousHash == s.pushed[1].previousHash == GENESIS
            && !ChainOk(env, s.pushed)
  {
    var x, y := NewEntry(env, f, timestamp, GENESIS), NewEntry(env, g, timestamp, GENESIS);
    var start := OverlappingStart(f, g, timestamp);
    OverlappingPushes(env, f, g, timestamp);
    ExecOne(env, start, SetTip(0));
    assert Exec(env, start + [SetTip(0)]) == State([x, y], x.hash, map[1 := Pushed(y.hash)], [x, y], []);
    ExecOne(env, start + [SetTip(0)], SetTip(1));
    assert !Linked([x, y], 1);
  }

  lemma ExecOne(env: Env, events: seq<Event>, e: Event)
    ensures Exec(env, events + [e]) == Step(env, Exec(env, events), e)
  {
    assert (events + [e])[..|events|] == events;
  }
}
