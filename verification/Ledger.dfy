/**
 The hash-chained ledger of crates/ledger: entries, the bounded ring, and
 concurrent writers whose calls interleave between reading the chain tip,
 pushing to the ring and setting the tip.
 */
module Ledger {
  import opened Wrappers
  import opened Digits

  const GENESIS := "GENESIS"
  const RING_BUFFER_CAPACITY: nat := 8192

  datatype EntryState = Pending | Committed | RolledBack | ManualReview | PendingBankReconciliation

  /** What a caller of `write` supplies. */
  datatype Fields = Fields(id: string, traceId: string, tenantId: string, accountDebit: string,
                           accountCredit: string, amount: string, currency: string)

  datatype Entry = Entry(fields: Fields, state: EntryState, timestamp: nat, previousHash: string, hash: string)

  /** The foreign parts: the hash function, and which amounts parse as decimals. */
  datatype Env = Env(digest: string -> string, validAmount: string -> bool)

  datatype LedgerError = BufferFull | InvalidAmount(amount: string)

  // ---------- Entries ----------

  function Join(parts: seq<string>): string
    requires parts != []
  {
    if |parts| == 1 then parts[0] else parts[0] + ":" + Join(parts[1..])
  }

  /** The hashed text; it covers neither the tenant nor the state. */
  function Payload(previousHash: string, f: Fields, timestamp: nat): string {
    Join([previousHash, f.id, f.traceId, f.accountDebit, f.accountCredit, f.amount, f.currency, Print(timestamp)])
  }

  function EntryPayload(e: Entry): string {
    Payload(e.previousHash, e.fields, e.timestamp)
  }

  function NewEntry(env: Env, f: Fields, timestamp: nat, previousHash: string): Entry {
    Entry(f, Pending, timestamp, previousHash, env.digest(Payload(previousHash, f, timestamp)))
  }

  predicate Verify(env: Env, e: Entry) {
    e.hash == env.digest(EntryPayload(e))
  }

  /** The hash a log ends in. */
  function EndHash(log: seq<Entry>): string {
    if log == [] then GENESIS else log[|log| - 1].hash
  }

  predicate Linked(log: seq<Entry>, i: nat)
    requires 0 < i < |log|
  {
    log[i].previousHash == log[i - 1].hash
  }

  /** What `verify_chain` accepts. */
  predicate ChainOk(env: Env, log: seq<Entry>) {
    && (forall i :: 0 <= i < |log| ==> Verify(env, log[i]))
    && (forall i {:trigger Linked(log, i)} :: 0 < i < |log| ==> Linked(log, i))
  }

  method VerifyChain(env: Env, entries: seq<Entry>) returns (ok: bool)
    ensures ok <==> ChainOk(env, entries)
  {
    for i := 0 to |entries|
      invariant forall k :: 0 <= k < i ==> Verify(env, entries[k])
    {
      if !Verify(env, entries[i]) {
        return false;
      }
    }
    if entries == [] {
      return true;
    }
    for i := 1 to |entries|
      invariant forall k {:trigger Linked(entries, k)} :: 0 < k < i ==> Linked(entries, k)
    {
      if entries[i].previousHash != entries[i - 1].hash {
        assert !Linked(entries, i);
        return false;
      }
    }
    return true;
  }

  // ---------- Interleaved writers ----------

  /** Where a `write` call stands: holding an entry to push, or a hash to make the tip. */
  datatype Writer = Holding(entry: Entry) | Pushed(hash: string)

  datatype Taken = Taken(flusher: nat, entry: Entry)

  /** `pushed` and `taken` record every push and pop so far. */
  datatype State = State(ring: seq<Entry>, tip: string, writers: map<nat, Writer>,
                         pushed: seq<Entry>, taken: seq<Taken>)

  /** One atomic step of some thread; `ReadTip` also builds the entry, locally. */
  datatype Event =
    | ReadTip(writer: nat, fields: Fields, timestamp: nat)
    | Push(writer: nat)
    | SetTip(writer: nat)
    | Pop(flusher: nat)

  const INITIAL := State([], GENESIS, map[], [], [])

  function Step(env: Env, s: State, e: Event): State {
    match e
    case ReadTip(w, fields, timestamp) =>
      if w in s.writers || !env.validAmount(fields.amount) then s
      else s.(writers := s.writers[w := Holding(NewEntry(env, fields, timestamp, s.tip))])
    case Push(w) =>
      if w !in s.writers || !s.writers[w].Holding? then s
      else if |s.ring| >= RING_BUFFER_CAPACITY then s.(writers := s.writers - {w})
      else
        var entry := s.writers[w].entry;
        s.(ring := s.ring + [entry], pushed := s.pushed + [entry], writers := s.writers[w := Pushed(entry.hash)])
    case SetTip(w) =>
      if w !in s.writers || !s.writers[w].Pushed? then s
      else s.(tip := s.writers[w].hash, writers := s.writers - {w})
    case Pop(f) =>
      if s.ring == [] then s
      else s.(ring := s.ring[1..], taken := s.taken + [Taken(f, s.ring[0])])
  }

  function Exec(env: Env, events: seq<Event>): State {
    if events == [] then INITIAL
    else Step(env, Exec(env, events[..|events| - 1]), events[|events| - 1])
  }

  function TakenEntries(taken: seq<Taken>): (r: seq<Entry>)
    ensures |r| == |taken|
  {
    seq(|taken|, i requires 0 <= i < |taken| => taken[i].entry)
  }

  /** GENESIS, or the hash of some entry of the log. */
  ghost predicate Known(log: seq<Entry>, hash: string) {
    hash == GENESIS || exists i :: 0 <= i < |log| && log[i].hash == hash
  }

  ghost predicate Grounded(env: Env, log: seq<Entry>, i: nat)
    requires i < |log|
  {
    Verify(env, log[i]) && Known(log[..i], log[i].previousHash)
  }

  /** What holds between any two steps of any interleaving. */
  ghost predicate Inv(env: Env, s: State) {
    && |s.ring| <= RING_BUFFER_CAPACITY
    && TakenEntries(s.taken) + s.ring == s.pushed
    && (forall i {:trigger Grounded(env, s.pushed, i)} :: 0 <= i < |s.pushed| ==> Grounded(env, s.pushed, i))
    && Known(s.pushed, s.tip)
    && (forall w :: w in s.writers ==>
          match s.writers[w]
          case Holding(e) => Verify(env, e) && Known(s.pushed, e.previousHash)
          case Pushed(h) => Known(s.pushed, h))
  }

  lemma KnownGrows(log: seq<Entry>, e: Entry)
    ensures forall h :: Known(log, h) ==> Known(log + [e], h)
    ensures Known(log + [e], e.hash)
  {
    assert (log + [e])[|log|] == e;
    forall h | Known(log, h) ensures Known(log + [e], h) {
      if i :| 0 <= i < |log| && log[i].hash == h {
        assert (log + [e])[i].hash == h;
      }
    }
  }

  lemma GroundedGrows(env: Env, log: seq<Entry>, e: Entry)
    requires forall i {:trigger Grounded(env, log, i)} :: 0 <= i < |log| ==> Grounded(env, log, i)
    requires Verify(env, e) && Known(log, e.previousHash)
    ensures forall i {:trigger Grounded(env, log + [e], i)} :: 0 <= i < |log + [e]| ==> Grounded(env, log + [e], i)
  {
    forall i | 0 <= i < |log + [e]| ensures Grounded(env, log + [e], i) {
      assert (log + [e])[..i] == log[..i];
      if i < |log| {
        assert Grounded(env, log, i);
      } else {
        assert log[..i] == log;
      }
    }
  }

  lemma StepKeepsInv(env: Env, s: State, e: Event)
    requires Inv(env, s)
    ensures Inv(env, Step(env, s, e))
  {
    match e
    case ReadTip(w, fields, timestamp) =>
    case Push(w) =>
      if w in s.writers && s.writers[w].Holding? && |s.ring| < RING_BUFFER_CAPACITY {
        var entry := s.writers[w].entry;
        KnownGrows(s.pushed, entry);
        GroundedGrows(env, s.pushed, entry);
        assert TakenEntries(s.taken) + (s.ring + [entry]) == s.pushed + [entry];
      }
    case SetTip(w) =>
    case Pop(f) =>
      if s.ring != [] {
        var taken := s.taken + [Taken(f, s.ring[0])];
        assert TakenEntries(taken) == TakenEntries(s.taken) + [s.ring[0]];
        assert TakenEntries(taken) + s.ring[1..] == s.pushed;
      }
  }

  /**
   In every interleaving: the ring never exceeds its capacity; what was popped,
   in order, followed by the ring, is exactly what was pushed; every pushed
   entry verifies and refers to GENESIS or to an entry pushed before it.
   */
  lemma {:induction false} EveryInterleaving(env: Env, events: seq<Event>)
    ensures Inv(env, Exec(env, events))
  {
    if events != [] {
      EveryInterleaving(env, events[..|events| - 1]);
      StepKeepsInv(env, Exec(env, events[..|events| - 1]), events[|events| - 1]);
    } else {
      assert TakenEntries(INITIAL.taken) == [];
    }
  }

  function Pops(flusher: nat, n: nat): seq<Event> {
    seq(n, _ => Pop(flusher))
  }

  /** The flusher has taken the `n` oldest entries, and touched nothing else. */
  ghost predicate Drained(before: State, flusher: nat, n: nat, after: State) {
    && n <= |before.ring| && after.ring == before.ring[n..]
    && after.taken == before.taken + seq(n, i requires 0 <= i < n => Taken(flusher, before.ring[i]))
    && after == before.(ring := after.ring, taken := after.taken)
  }

  lemma DrainOne(env: Env, before: State, flusher: nat, n: nat, s: State)
    requires Drained(before, flusher, n, s) && n < |before.ring|
    ensures Drained(before, flusher, n + 1, Step(env, s, Pop(flusher)))
  {
    var oldest := seq(n, i requires 0 <= i < n => Taken(flusher, before.ring[i]));
    assert seq(n + 1, i requires 0 <= i < n + 1 => Taken(flusher, before.ring[i]))
        == oldest + [Taken(flusher, before.ring[n])];
  }

  /** After any interleaving, pops of one flusher take the oldest entries, one each. */
  lemma {:induction false} PopsTakeOldest(env: Env, events: seq<Event>, flusher: nat, n: nat)
    requires n <= |Exec(env, events).ring|
    ensures Drained(Exec(env, events), flusher, n, Exec(env, events + Pops(flusher, n)))
  {
    if n == 0 {
      assert events + Pops(flusher, 0) == events;
    } else {
      PopsTakeOldest(env, events, flusher, n - 1);
      var popped := events + Pops(flusher, n - 1);
      assert events + Pops(flusher, n) == popped + [Pop(flusher)];
      assert (popped + [Pop(flusher)])[..|popped|] == popped;
      DrainOne(env, Exec(env, events), flusher, n - 1, Exec(env, popped));
    }
  }

  // ---------- Writers that do not overlap ----------

  /** No `write` call starts while another is under way. */
  ghost predicate Serial(env: Env, events: seq<Event>) {
    forall k {:trigger events[k]} :: 0 <= k < |events| && events[k].ReadTip? ==> Exec(env, events[..k]).writers == map[]
  }

  /** The pushed entries form one chain from GENESIS. */
  ghost predicate OneChain(env: Env, log: seq<Entry>) {
    ChainOk(env, log) && (log != [] ==> log[0].previousHash == GENESIS)
  }

  ghost predicate SerialInv(env: Env, s: State) {
    && OneChain(env, s.pushed)
    && (s.writers == map[] ==> s.tip == EndHash(s.pushed))
    && (forall v, w :: v in s.writers && w in s.writers ==> v == w)
    && (forall w :: w in s.writers ==>
          match s.writers[w]
          case Holding(e) => Verify(env, e) && e.previousHash == s.tip == EndHash(s.pushed)
          case Pushed(h) => h == EndHash(s.pushed))
  }

  lemma ChainGrows(env: Env, log: seq<Entry>, e: Entry)
    requires OneChain(env, log) && Verify(env, e) && e.previousHash == EndHash(log)
    ensures OneChain(env, log + [e]) && EndHash(log + [e]) == e.hash
  {
    var longer := log + [e];
    forall i | 0 < i < |longer| ensures Linked(longer, i) {
      if i < |log| {
        assert Linked(log, i);
      }
    }
  }

  lemma StepKeepsSerialInv(env: Env, s: State, e: Event)
    requires SerialInv(env, s) && (e.ReadTip? ==> s.writers == map[])
    ensures SerialInv(env, Step(env, s, e))
  {
    if e.Push? && e.writer in s.writers && s.writers[e.writer].Holding? && |s.ring| < RING_BUFFER_CAPACITY {
      ChainGrows(env, s.pushed, s.writers[e.writer].entry);
    }
    if !e.Pop? && e.writer in s.writers {
      assert s.writers - {e.writer} == map[];
    }
  }

  lemma {:induction false} SerialRuns(env: Env, events: seq<Event>)
    requires Serial(env, events)
    ensures SerialInv(env, Exec(env, events))
  {
    if events != [] {
      var n := |events| - 1;
      forall k | 0 <= k < n && events[..n][k].ReadTip? ensures Exec(env, events[..n][..k]).writers == map[] {
        assert events[..n][..k] == events[..k];
        assert events[k].ReadTip?;
      }
      SerialRuns(env, events[..n]);
      StepKeepsSerialInv(env, Exec(env, events[..n]), events[n]);
    }
  }

  /** Any run of consecutive entries of one chain passes `verify_chain`. */
  lemma ChainSlice(env: Env, log: seq<Entry>, a: nat, b: nat)
    requires ChainOk(env, log) && a <= b <= |log|
    ensures ChainOk(env, log[a..b])
  {
    var slice := log[a..b];
    forall i | 0 < i < |slice| ensures Linked(slice, i) {
      assert Linked(log, a + i);
    }
  }

  /**
   When `write` calls do not overlap, everything pushed forms one linear chain,
   so every batch passes `verify_chain` and each batch continues the one before.
   */
  lemma SerialWritesChain(env: Env, events: seq<Event>)
    requires Serial(env, events)
    ensures var s := Exec(env, events);
            && OneChain(env, s.pushed)
            && (s.writers == map[] ==> s.tip == EndHash(s.pushed))
            && forall a, b :: 0 <= a <= b <= |s.pushed| ==> ChainOk(env, s.pushed[a..b])
  {
    SerialRuns(env, events);
    var s := Exec(env, events);
    forall a, b | 0 <= a <= b <= |s.pushed| ensures ChainOk(env, s.pushed[a..b]) {
      ChainSlice(env, s.pushed, a, b);
    }
  }

  /** A call that runs without interruption appends one entry, or changes nothing when it fails. */
  lemma UninterruptedWrite(env: Env, s: State, w: nat, f: Fields, timestamp: nat)
    requires w !in s.writers
    ensures var after := Step(env, Step(env, Step(env, s, ReadTip(w, f, timestamp)), Push(w)), SetTip(w));
            var e := NewEntry(env, f, timestamp, s.tip);
            after == if env.validAmount(f.amount) && |s.ring| < 8192
                     then s.(ring := s.ring + [e], pushed := s.pushed + [e], tip := e.hash)
                     else s
  {
    var e := NewEntry(env, f, timestamp, s.tip);
    if env.validAmount(f.amount) {
      assert s.writers[w := Holding(e)] - {w} == s.writers;
      assert s.writers[w := Holding(e)][w := Pushed(e.hash)] - {w} == s.writers;
    }
  }

  // ---------- The writer object ----------

  class LedgerWriter {
    var ring: seq<Entry>
    var lastHash: string

    constructor ()
      ensures ring == [] && lastHash == "GENESIS"
    {
      ring := [];
      lastHash := GENESIS;
    }

    /** One `write` call that no other call interrupts; an error changes nothing. */
    method Write(env: Env, fields: Fields, now: nat) returns (result: Result<string, LedgerError>)
      modifies this
      ensures result.Err? ==> ring == old(ring) && lastHash == old(lastHash)
      ensures result == Err(InvalidAmount(fields.amount)) <==> !env.validAmount(fields.amount)
      ensures result == Err(BufferFull) <==> env.validAmount(fields.amount) && |old(ring)| >= 8192
      ensures result.Ok? ==> exists e: Entry ::
                && ring == old(ring) + [e] && lastHash == result.value == e.hash
                && e.fields == fields && e.state == Pending && e.timestamp == now
                && e.previousHash == old(lastHash) && Verify(env, e)
    {
      var previousHash := lastHash;
      if !env.validAmount(fields.amount) {
        return Err(InvalidAmount(fields.amount));
      }
      var entry := NewEntry(env, fields, now, previousHash);
      var newHash := entry.hash;
      if |ring| >= RING_BUFFER_CAPACITY {
        return Err(BufferFull);
      }
      ring := ring + [entry];
      lastHash := newHash;
      return Ok(newHash);
    }

    /** Takes everything, oldest first; the tip stays, so the next batch continues this one. */
    method Flush() returns (batch: seq<Entry>)
      modifies this
      ensures batch == old(ring) && ring == [] && lastHash == old(lastHash)
    {
      batch := [];
      while ring != []
        invariant batch + ring == old(ring) && lastHash == old(lastHash)
        decreases |ring|
      {
        batch := batch + [ring[0]];
        ring := ring[1..];
      }
    }
  }
}
