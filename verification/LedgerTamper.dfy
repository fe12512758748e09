/**
 Tamper evidence of the hash-chained ledger: what two logs that end in the same
 hash must share, and what the hash does not cover.
 */
module LedgerTamper {
  import opened Ledger
  import opened Digits

  predicate ColonFree(s: string) {
    ':' !in s
  }

  function Parts(e: Entry): seq<string> {
    [e.previousHash, e.fields.id, e.fields.traceId, e.fields.accountDebit, e.fields.accountCredit,
     e.fields.amount, e.fields.currency, Print(e.timestamp)]
  }

  /** Everything the hash covers. */
  predicate SameHashed(a: Entry, b: Entry) {
    && a.previousHash == b.previousHash && a.timestamp == b.timestamp
    && a.fields.(tenantId := b.fields.tenantId) == b.fields
  }

  /** No hashed part but possibly the `p`-th has a colon; the last part is a number. */
  predicate ColonFreeBut(e: Entry, p: nat) {
    forall i :: 0 <= i < 7 && i != p ==> ColonFree(Parts(e)[i])
  }

  /** Cut at colons in different places, one part of each half has the other's colon. */
  lemma CutElsewhere(a: string, x: string, b: string, y: string)
    requires a + ":" + x == b + ":" + y
    ensures |a| > |b| ==> ':' in a && ':' in y
    ensures |a| < |b| ==> ':' in b && ':' in x
    ensures |a| == |b| ==> a == b && x == y
  {
    var s := a + ":" + x;
    assert s[|a|] == ':' && s[|b|] == ':';
    if |a| > |b| {
      assert s[|b|] == a[|b|] && s[|a|] == y[|a| - |b| - 1];
    } else if |a| < |b| {
      assert s[|a|] == b[|a|] && s[|b|] == x[|b| - |a| - 1];
    } else {
      assert a == s[..|a|] && b == s[..|a|] && x == s[|a| + 1..] && y == s[|a| + 1..];
    }
  }

  lemma SplitAtColon(a: string, x: string, b: string, y: string)
    requires a + ":" + x == b + ":" + y && ((ColonFree(a) && ColonFree(b)) || (ColonFree(x) && ColonFree(y)))
    ensures a == b && x == y
  {
    CutElsewhere(a, x, b, y);
  }

  lemma JoinThree(a: string, b: string, c: string, more: seq<string>)
    requires more != []
    ensures Join([a, b, c] + more) == a + ":" + (b + ":" + (c + ":" + Join(more)))
  {
    assert ([a, b, c] + more)[1..] == [b, c] + more;
    assert ([b, c] + more)[1..] == [c] + more;
    assert ([c] + more)[1..] == more;
    assert Join([c] + more) == c + ":" + Join(more);
    assert Join([b, c] + more) == b + ":" + Join([c] + more);
  }

  /** The hashed text, from the previous hash to the time. */
  lemma PayloadText(previousHash: string, f: Fields, timestamp: nat)
    ensures Payload(previousHash, f, timestamp)
         == previousHash + ":" + (f.id + ":" + (f.traceId + ":" + (f.accountDebit + ":" + (f.accountCredit + ":"
            + (f.amount + ":" + (f.currency + ":" + Print(timestamp)))))))
  {
    var last := [f.currency, Print(timestamp)];
    var end := [f.accountDebit, f.accountCredit, f.amount] + last;
    assert last[1..] == [Print(timestamp)];
    JoinThree(f.accountDebit, f.accountCredit, f.amount, last);
    JoinThree(previousHash, f.id, f.traceId, end);
    assert [previousHash, f.id, f.traceId] + end
        == [previousHash, f.id, f.traceId, f.accountDebit, f.accountCredit, f.amount, f.currency, Print(timestamp)];
  }

  lemma {:induction false} JoinSnoc(x: seq<string>)
    requires |x| > 1
    ensures Join(x) == Join(x[..|x| - 1]) + ":" + x[|x| - 1]
  {
    if |x| == 2 {
      assert x[1..] == [x[1]] && x[..1] == [x[0]];
    } else {
      JoinSnoc(x[1..]);
      assert x[1..][..|x| - 2] == x[..|x| - 1][1..];
      RegroupJoin(x[0], Join(x[1..][..|x| - 2]), x[|x| - 1]);
    }
  }

  lemma RegroupJoin(a: string, b: string, c: string)
    ensures a + ":" + (b + ":" + c) == a + ":" + b + ":" + c
  {
  }

  /** Joined parts can be told apart when only those at one position may have colons. */
  lemma {:induction false} JoinInjective(x: seq<string>, y: seq<string>, p: nat)
    requires |x| == |y| > 0 && Join(x) == Join(y)
    requires forall i :: 0 <= i < |x| && i != p ==> ColonFree(x[i]) && ColonFree(y[i])
    ensures x == y
  {
    var n := |x| - 1;
    if n == 0 {
      assert x == [x[0]] && y == [y[0]];
    } else if p > 0 {
      SplitAtColon(x[0], Join(x[1..]), y[0], Join(y[1..]));
      JoinInjective(x[1..], y[1..], p - 1);
      assert x == [x[0]] + x[1..] && y == [y[0]] + y[1..];
    } else {
      JoinSnoc(x);
      JoinSnoc(y);
      SplitAtColon(Join(x[..n]), x[n], Join(y[..n]), y[n]);
      JoinInjective(x[..n], y[..n], p);
      assert x == x[..n] + [x[n]] && y == y[..n] + [y[n]];
    }
  }

  /** Entries with the same payload agree on every hashed field, if only one field may have colons. */
  lemma PayloadInjective(a: Entry, b: Entry, p: nat)
    requires ColonFreeBut(a, p) && ColonFreeBut(b, p) && EntryPayload(a) == EntryPayload(b)
    ensures SameHashed(a, b)
  {
    assert EntryPayload(a) == Join(Parts(a)) && EntryPayload(b) == Join(Parts(b));
    JoinInjective(Parts(a), Parts(b), if p < 7 then p else 8);
    SameParts(a, b);
  }

  lemma SameParts(a: Entry, b: Entry)
    requires Parts(a) == Parts(b)
    ensures SameHashed(a, b)
  {
    assert Parts(a)[0] == Parts(b)[0] && Parts(a)[1] == Parts(b)[1] && Parts(a)[2] == Parts(b)[2];
    assert Parts(a)[3] == Parts(b)[3] && Parts(a)[4] == Parts(b)[4] && Parts(a)[5] == Parts(b)[5];
    assert Parts(a)[6] == Parts(b)[6] && Parts(a)[7] == Parts(b)[7];
    ParsePrint(a.timestamp);
    ParsePrint(b.timestamp);
  }

  ghost predicate Collision(env: Env, a: Entry, b: Entry) {
    EntryPayload(a) != EntryPayload(b) && env.digest(EntryPayload(a)) == env.digest(EntryPayload(b))
  }

  /** The digest collides on two entries, one of each log, or yields GENESIS on one. */
  ghost predicate DigestBroken(env: Env, a: seq<Entry>, b: seq<Entry>) {
    || (exists e, f :: e in a && f in b && Collision(env, e, f))
    || (exists e :: e in a + b && env.digest(EntryPayload(e)) == GENESIS)
  }

  ghost predicate SameLog(a: seq<Entry>, b: seq<Entry>) {
    |a| == |b| && forall i :: 0 <= i < |a| ==> SameHashed(a[i], b[i])
  }

  /** The entry a chain ends in refers to where the rest of the chain ends. */
  lemma ChainPrefix(env: Env, log: seq<Entry>)
    requires OneChain(env, log) && log != []
    ensures var rest := log[..|log| - 1]; OneChain(env, rest) && log[|log| - 1].previousHash == EndHash(rest)
  {
    var n := |log| - 1;
    ChainSlice(env, log, 0, n);
    assert log[0..n] == log[..n];
    if n > 0 {
      assert Linked(log, n);
    }
  }

  /** No digest of an entry of one log stands for another payload of the other, or for no entry. */
  ghost predicate Intact(env: Env, a: seq<Entry>, b: seq<Entry>) {
    && (forall e, f :: e in a && f in b ==> !Collision(env, e, f))
    && (forall e :: e in a + b ==> env.digest(EntryPayload(e)) != GENESIS)
  }

  ghost predicate AllColonFree(log: seq<Entry>, p: nat) {
    forall e :: e in log ==> ColonFreeBut(e, p)
  }

  lemma IntactInside(env: Env, a: seq<Entry>, b: seq<Entry>, m: nat, n: nat, p: nat)
    requires Intact(env, a, b) && m <= |a| && n <= |b| && AllColonFree(a, p) && AllColonFree(b, p)
    ensures Intact(env, a[..m], b[..n]) && AllColonFree(a[..m], p) && AllColonFree(b[..n], p)
  {
    assert forall e :: e in a[..m] ==> e in a;
    assert forall e :: e in b[..n] ==> e in b;
  }

  /** A chain of at least one entry cannot end where the empty chain does. */
  lemma EndNotGenesis(env: Env, log: seq<Entry>)
    requires OneChain(env, log) && forall e :: e in log ==> env.digest(EntryPayload(e)) != GENESIS
    ensures log != [] ==> EndHash(log) != GENESIS
  {
    if log != [] {
      var e := log[|log| - 1];
      assert e in log && Verify(env, e);
    }
  }

  /** Two chains with the same end agree on the last entry and on where the rest ends. */
  lemma LastEntries(env: Env, a: seq<Entry>, b: seq<Entry>, p: nat)
    requires OneChain(env, a) && OneChain(env, b) && EndHash(a) == EndHash(b) && Intact(env, a, b)
    requires a != [] && b != [] && AllColonFree(a, p) && AllColonFree(b, p)
    ensures SameHashed(a[|a| - 1], b[|b| - 1]) && EndHash(a[..|a| - 1]) == EndHash(b[..|b| - 1])
    ensures OneChain(env, a[..|a| - 1]) && OneChain(env, b[..|b| - 1])
  {
    var x, y := a[|a| - 1], b[|b| - 1];
    assert x in a && y in b && Verify(env, x) && Verify(env, y);
    assert !Collision(env, x, y);
    PayloadInjective(x, y, p);
    ChainPrefix(env, a);
    ChainPrefix(env, b);
  }

  lemma ExtendSame(a: seq<Entry>, b: seq<Entry>)
    requires a != [] && b != [] && SameLog(a[..|a| - 1], b[..|b| - 1]) && SameHashed(a[|a| - 1], b[|b| - 1])
    ensures SameLog(a, b)
  {
    forall i | 0 <= i < |a| - 1 ensures SameHashed(a[i], b[i]) {
      assert SameHashed(a[..|a| - 1][i], b[..|b| - 1][i]);
    }
  }

  lemma {:induction false} IntactMeansSame(env: Env, a: seq<Entry>, b: seq<Entry>, p: nat)
    requires OneChain(env, a) && OneChain(env, b) && EndHash(a) == EndHash(b) && Intact(env, a, b)
    requires AllColonFree(a, p) && AllColonFree(b, p)
    ensures SameLog(a, b)
    decreases |a|
  {
    EndNotGenesis(env, a);
    EndNotGenesis(env, b);
    if a != [] && b != [] {
      LastEntries(env, a, b, p);
      IntactInside(env, a, b, |a| - 1, |b| - 1, p);
      IntactMeansSame(env, a[..|a| - 1], b[..|b| - 1], p);
      ExtendSame(a, b);
    }
  }

  /**
   Two chains from GENESIS that end in the same hash have the same length and
   the same hashed fields throughout, unless the digest itself is broken on
   their entries.
   */
  lemma TamperEvidence(env: Env, a: seq<Entry>, b: seq<Entry>, p: nat)
    requires OneChain(env, a) && OneChain(env, b) && EndHash(a) == EndHash(b)
    requires AllColonFree(a, p) && AllColonFree(b, p)
    ensures SameLog(a, b) || DigestBroken(env, a, b)
  {
    if Intact(env, a, b) {
      IntactMeansSame(env, a, b, p);
    }
  }

  /** The tenant and the state of an entry can be changed unnoticed. */
  lemma TenantAndStateNotCovered(env: Env, log: seq<Entry>, i: nat, tenantId: string, state: EntryState)
    requires OneChain(env, log) && i < |log|
    ensures var edited := log[i := log[i].(fields := log[i].fields.(tenantId := tenantId), state := state)];
            OneChain(env, edited) && EndHash(edited) == EndHash(log)
  {
    var edited := log[i := log[i].(fields := log[i].fields.(tenantId := tenantId), state := state)];
    forall k | 0 < k < |edited| ensures Linked(edited, k) {
      assert Linked(log, k);
    }
  }

  /** With colons in fields, different entries can share a payload, and so a hash. */
  lemma ColonsBreakInjectivity(env: Env, f: Fields, timestamp: nat)
    ensures var a := NewEntry(env, f.(id := "x:y", traceId := "z"), timestamp, GENESIS);
            var b := NewEntry(env, f.(id := "x", traceId := "y:z"), timestamp, GENESIS);
            !SameHashed(a, b) && OneChain(env, [a]) && OneChain(env, [b]) && EndHash([a]) == EndHash([b])
  {
    ColonMoves(GENESIS, "x", "y", "z", [f.accountDebit, f.accountCredit, f.amount, f.currency, Print(timestamp)]);
    RegroupParts(GENESIS, "x:y", "z", f.accountDebit, f.accountCredit, f.amount, f.currency, Print(timestamp));
    RegroupParts(GENESIS, "x", "y:z", f.accountDebit, f.accountCredit, f.amount, f.currency, Print(timestamp));
    assert "x" + ":" + "y" == "x:y" && "y" + ":" + "z" == "y:z";
  }

  /** A colon inside a part reads like the colon between two. */
  lemma ColonMoves(first: string, x: string, y: string, z: string, tail: seq<string>)
    requires tail != []
    ensures Join([first] + ([x + ":" + y] + ([z] + tail))) == Join([first] + ([x] + ([y + ":" + z] + tail)))
  {
    JoinCons(z, tail);
    JoinCons(x + ":" + y, [z] + tail);
    JoinCons(first, [x + ":" + y] + ([z] + tail));
    JoinCons(y + ":" + z, tail);
    JoinCons(x, [y + ":" + z] + tail);
    JoinCons(first, [x] + ([y + ":" + z] + tail));
    assert x + ":" + y + ":" + (z + ":" + Join(tail)) == x + ":" + (y + ":" + z + ":" + Join(tail));
  }

  lemma RegroupParts(a: string, b: string, c: string, d: string, e: string, f: string, g: string, h: string)
    ensures [a] + ([b] + ([c] + [d, e, f, g, h])) == [a, b, c, d, e, f, g, h]
  {
  }

  lemma JoinCons(head: string, tail: seq<string>)
    requires tail != []
    ensures Join([head] + tail) == head + ":" + Join(tail)
  {
    assert ([head] + tail)[1..] == tail;
  }
}
