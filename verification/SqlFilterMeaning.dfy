/**
 What the injected filters do to the rows a SELECT accepts, and exactly when
 that is tenant and soft-delete scoping.
 */
module SqlFilterMeaning {
  import opened SqlText
  import opened SqlReader
  import opened SqlFilters

  /** The test that a row belongs to the tenant. */
  function TenantTest(tenantId: string): seq<Token> {
    [Word("ORG_ID"), Sym('='), Quote(tenantId)]
  }

  /** The test that a row is not deleted. */
  const LIVE_TEST: seq<Token> := [Word("DELETED_AT"), Word("IS"), Word("NULL")]

  const AND: seq<Token> := [Word("AND")]

  function Filters(tenantId: string): seq<Token> {
    TenantTest(tenantId) + AND + LIVE_TEST
  }

  // ---------- Reading the inserted text ----------

  predicate EndsWord(rest: string) {
    rest == "" || !IsWord(rest[0])
  }

  lemma UpperWords()
    ensures Upper("org_id") == "ORG_ID" && Upper("deleted_at") == "DELETED_AT"
    ensures Upper("AND") == "AND" && Upper("IS") == "IS" && Upper("NULL") == "NULL" && Upper("WHERE") == "WHERE"
  {
  }

  lemma SpacedWord(word: string, rest: string)
    requires word != "" && (forall i :: 0 <= i < |word| ==> IsWord(word[i])) && EndsWord(rest)
    ensures Tokens(" " + (word + rest)) == [Word(Upper(word))] + Tokens(rest)
  {
    TokensSpace(word + rest);
    TokensWord(word, rest);
  }

  lemma {:induction false} ClosedPlain(s: string)
    requires '\'' !in s
    ensures Closed(s)
  {
    if s != "" {
      ClosedPlain(s[1..]);
    }
  }

  predicate WholeWord(word: string) {
    word != "" && forall i :: 0 <= i < |word| ==> IsWord(word[i])
  }

  lemma FourWords(a: string, b: string, c: string, d: string, rest: string)
    requires WholeWord(a) && WholeWord(b) && WholeWord(c) && WholeWord(d) && EndsWord(rest)
    ensures Tokens(" " + (a + (" " + (b + (" " + (c + (" " + (d + rest))))))))
         == [Word(Upper(a))] + ([Word(Upper(b))] + ([Word(Upper(c))] + ([Word(Upper(d))] + Tokens(rest))))
  {
    SpacedWord(d, rest);
    SpacedWord(c, " " + (d + rest));
    SpacedWord(b, " " + (c + (" " + (d + rest))));
    SpacedWord(a, " " + (b + (" " + (c + (" " + (d + rest))))));
  }

  /** What follows the tenant literal, and what comes after it. */
  function LiveText(rest: string): string {
    " " + ("AND" + (" " + ("deleted_at" + (" " + ("IS" + (" " + ("NULL" + rest)))))))
  }

  lemma RegroupTokens(a: Token, b: Token, c: Token, d: Token, rest: seq<Token>)
    ensures [a] + ([b] + ([c] + ([d] + rest))) == [a] + [b, c, d] + rest
  {
  }

  lemma LiveTokens(rest: string)
    requires EndsWord(rest)
    ensures Tokens(LiveText(rest)) == AND + LIVE_TEST + Tokens(rest)
  {
    UpperWords();
    FourWords("AND", "deleted_at", "IS", "NULL", rest);
    RegroupTokens(Word("AND"), Word("DELETED_AT"), Word("IS"), Word("NULL"), Tokens(rest));
  }

  /** `org_id = ` and a literal. */
  lemma TenantTokens(literal: string)
    ensures Tokens("org_id" + (" " + ("=" + (" " + literal)))) == [Word("ORG_ID")] + ([Sym('=')] + Tokens(literal))
  {
    UpperWords();
    TokensSpace(literal);
    var equals := "=" + (" " + literal);
    assert equals[1..] == " " + literal;
    assert Tokens(equals) == [Sym('=')] + Tokens(literal);
    TokensSpace(equals);
    TokensWord("org_id", " " + equals);
  }

  lemma RegroupFive(a: string, b: string, c: string, d: string, e: string, x: string)
    ensures a + (b + (c + (d + e))) + x == a + (b + (c + (d + (e + x))))
  {
  }

  lemma RegroupEight(a: string, b: string, c: string, d: string, e: string, f: string, g: string, h: string, x: string)
    ensures a + (b + (c + (d + (e + (f + (g + h)))))) + x == a + (b + (c + (d + (e + (f + (g + (h + x)))))))
  {
  }

  lemma SoftDeleteText(rest: string)
    ensures SOFT_DELETE_TEST + rest == "'" + LiveText(rest)
  {
    assert SOFT_DELETE_TEST == "'" + LiveText("");
    SqlLiteral.Assoc("'", LiveText(""), rest);
    RegroupEight(" ", "AND", " ", "deleted_at", " ", "IS", " ", "NULL", rest);
    assert "NULL" + "" == "NULL";
  }

  lemma CombinedText(tenantId: string, rest: string)
    ensures Combined(tenantId) + rest
         == "org_id" + (" " + ("=" + (" " + ("'" + (SqlLiteral.Escape(tenantId) + ("'" + LiveText(rest)))))))
  {
    var e := SqlLiteral.Escape(tenantId);
    assert TENANT_TEST == "org_id" + (" " + ("=" + (" " + "'")));
    SqlLiteral.Assoc(TENANT_TEST, e + SOFT_DELETE_TEST, rest);
    SqlLiteral.Assoc(e, SOFT_DELETE_TEST, rest);
    SoftDeleteText(rest);
    RegroupFive("org_id", " ", "=", " ", "'", e + ("'" + LiveText(rest)));
  }

  lemma RegroupFilters(a: Token, b: Token, c: Token, conj: seq<Token>, live: seq<Token>, rest: seq<Token>)
    ensures [a] + ([b] + ([c] + (conj + live + rest))) == [a, b, c] + conj + live + rest
  {
  }

  /** The injected filters are read as the two tests, whatever the tenant id. */
  lemma CombinedTokens(tenantId: string, rest: string)
    requires EndsWord(rest)
    ensures Tokens(Combined(tenantId) + rest) == Filters(tenantId) + Tokens(rest)
  {
    CombinedText(tenantId, rest);
    LiveTokens(rest);
    TokensLiteral(tenantId, LiveText(rest));
    TenantTokens("'" + (SqlLiteral.Escape(tenantId) + ("'" + LiveText(rest))));
    RegroupFilters(Word("ORG_ID"), Sym('='), Quote(tenantId), AND, LIVE_TEST, Tokens(rest));
  }

  // ---------- Splitting the new condition ----------

  /** A token that neither nests nor ends nor splits a condition. */
  predicate FlatToken(t: Token) {
    && !Opens(t) && !Closes(t) && !EndsCondition(t) && !CombinesSelects(t)
    && t != Word("BETWEEN") && t != Word("OR") && t != Word("WHERE") && t != Word("ORDER") && t != Word("GROUP")
  }

  predicate Flat(p: seq<Token>) {
    forall i :: 0 <= i < |p| ==> FlatToken(p[i])
  }

  lemma {:induction false} ConditionPast(p: seq<Token>, ts: seq<Token>)
    requires Flat(p)
    ensures Condition(p + ts, 0) == p + Condition(ts, 0)
  {
    if p == [] {
      assert p + ts == ts;
    } else {
      assert (p + ts)[1..] == p[1..] + ts;
      ConditionPast(p[1..], ts);
    }
  }

  lemma {:induction false} SplitPast(p: seq<Token>, connective: string, ts: seq<Token>)
    requires Flat(p) && forall i :: 0 <= i < |p| ==> p[i] != Word(connective)
    ensures var r := Split(ts, connective, 0, false);
            Split(p + ts, connective, 0, false) == [p + r[0]] + r[1..]
  {
    var r := Split(ts, connective, 0, false);
    if p == [] {
      assert p + ts == ts;
      assert p + r[0] == r[0] && r == [r[0]] + r[1..];
    } else {
      assert (p + ts)[1..] == p[1..] + ts;
      SplitPast(p[1..], connective, ts);
      assert [p[0]] + (p[1..] + r[0]) == p + r[0];
    }
  }

  lemma SplitFirst(p: seq<Token>, rest: seq<Token>)
    requires Flat(p) && forall i :: 0 <= i < |p| ==> p[i] != Word("AND")
    ensures Conjuncts(p + (AND + rest)) == [p] + Conjuncts(rest)
  {
    SplitPast(p, "AND", AND + rest);
    assert (AND + rest)[1..] == rest;
    assert p + [] == p;
  }

  /** A test of a conjunction. */
  predicate FlatTest(p: seq<Token>) {
    Flat(p) && forall i :: 0 <= i < |p| ==> p[i] != Word("AND")
  }

  lemma TestsFlat(tenantId: string)
    ensures FlatTest(TenantTest(tenantId)) && FlatTest(LIVE_TEST)
  {
  }

  lemma TwoConjuncts(a: seq<Token>, b: seq<Token>, rest: seq<Token>)
    requires FlatTest(a) && FlatTest(b)
    ensures Conjuncts(a + AND + b + AND + rest) == [a, b] + Conjuncts(rest)
  {
    SplitFirst(a, b + (AND + rest));
    SplitFirst(b, rest);
    RegroupConjuncts(a, AND, b, rest);
  }

  lemma RegroupConjuncts(a: seq<Token>, c: seq<Token>, b: seq<Token>, rest: seq<Token>)
    ensures a + c + b + c + rest == a + (c + (b + (c + rest)))
  {
  }

  lemma OnlyConjuncts(a: seq<Token>, b: seq<Token>)
    requires FlatTest(a) && FlatTest(b)
    ensures Conjuncts(a + AND + b) == [a, b]
  {
    SplitFirst(a, b);
    SplitPast(b, "AND", []);
    assert b + [] == b;
    AssocTokens(a, AND, b);
  }

  lemma ConjunctsOfFilters(tenantId: string, rest: seq<Token>)
    ensures Conjuncts(Filters(tenantId) + AND + rest) == [TenantTest(tenantId), LIVE_TEST] + Conjuncts(rest)
    ensures Conjuncts(Filters(tenantId)) == [TenantTest(tenantId), LIVE_TEST]
  {
    TestsFlat(tenantId);
    TwoConjuncts(TenantTest(tenantId), LIVE_TEST, rest);
    OnlyConjuncts(TenantTest(tenantId), LIVE_TEST);
  }

  lemma FlatAppend(a: seq<Token>, b: seq<Token>)
    requires Flat(a) && Flat(b)
    ensures Flat(a + b)
  {
  }

  lemma FiltersFlat(tenantId: string)
    ensures Flat(Filters(tenantId)) && Flat(Filters(tenantId) + AND)
  {
    TestsFlat(tenantId);
    assert Flat(AND);
    FlatAppend(TenantTest(tenantId), AND);
    FlatAppend(TenantTest(tenantId) + AND, LIVE_TEST);
    FlatAppend(Filters(tenantId), AND);
  }

  /** Only the first disjunct gets the filters. */
  lemma DisjunctsOfFiltered(tenantId: string, condition: seq<Token>)
    ensures var d := Disjuncts(condition);
            Disjuncts(Filters(tenantId) + AND + condition) == [Filters(tenantId) + AND + d[0]] + d[1..]
  {
    FiltersFlat(tenantId);
    SplitPast(Filters(tenantId) + AND, "OR", condition);
  }

  // ---------- Which rows are accepted ----------

  lemma FilteredAccepts(tenantId: string, condition: seq<Token>, holds: seq<Token> -> bool)
    ensures var d := Disjuncts(condition);
            Accepts(Filters(tenantId) + AND + condition, holds) <==>
              || (holds(TenantTest(tenantId)) && holds(LIVE_TEST) && Conjunction(d[0], holds))
              || (exists i :: 0 < i < |d| && Conjunction(d[i], holds))
  {
    var d := Disjuncts(condition);
    DisjunctsOfFiltered(tenantId, condition);
    ConjunctsOfFilters(tenantId, d[0]);
    var first := Filters(tenantId) + AND + d[0];
    var all := Disjuncts(Filters(tenantId) + AND + condition);
    assert all == [first] + d[1..];
    assert Conjunction(first, holds) <==> holds(TenantTest(tenantId)) && holds(LIVE_TEST) && Conjunction(d[0], holds);
    assert first in all && forall i :: 0 < i < |d| ==> d[i] == all[i] && d[i] in all;
    assert forall x :: x in all ==> x == first || exists i :: 0 < i < |d| && d[i] == x;
  }

  lemma FiltersAccept(tenantId: string, holds: seq<Token> -> bool)
    ensures Accepts(Filters(tenantId), holds) <==> holds(TenantTest(tenantId)) && holds(LIVE_TEST)
  {
    var f := Filters(tenantId);
    ConjunctsOfFilters(tenantId, []);
    FiltersFlat(tenantId);
    SplitPast(f, "OR", []);
    assert f + [] == f;
    assert Disjuncts(f) == [f];
    assert TenantTest(tenantId) == Conjuncts(f)[0] && LIVE_TEST == Conjuncts(f)[1];
    assert f in Disjuncts(f);
  }

  /** The rows a statement returns: a malformed one returns none. */
  predicate Returns(reading: Reading, holds: seq<Token> -> bool) {
    match reading
    case Unrestricted => true
    case Restricted(condition) => Accepts(condition, holds)
    case Malformed => false
  }

  /** The scoping the injection is for: the original's rows that are the tenant's and not deleted. */
  ghost predicate Scopes(filtered: Reading, original: Reading, tenantId: string) {
    forall holds: seq<Token> -> bool :: Returns(filtered, holds) <==>
      holds(TenantTest(tenantId)) && holds(LIVE_TEST) && Returns(original, holds)
  }

  lemma SingleDisjunctScopes(tenantId: string, condition: seq<Token>)
    requires |Disjuncts(condition)| == 1
    ensures Scopes(Restricted(Filters(tenantId) + AND + condition), Restricted(condition), tenantId)
  {
    var d := Disjuncts(condition);
    forall holds: seq<Token> -> bool
      ensures Accepts(Filters(tenantId) + AND + condition, holds) <==>
                holds(TenantTest(tenantId)) && holds(LIVE_TEST) && Accepts(condition, holds)
    {
      FilteredAccepts(tenantId, condition, holds);
      assert d == [d[0]];
    }
  }

  /** Everything holds of the row but that it is the tenant's. */
  function OtherTenants(tenantId: string): seq<Token> -> bool {
    (t: seq<Token>) => t != TenantTest(tenantId)
  }

  lemma OtherTenantsPass(tenantId: string, condition: seq<Token>, disjunct: seq<Token>)
    requires Word("ORG_ID") !in condition && disjunct in Disjuncts(condition)
    ensures Conjunction(disjunct, OtherTenants(tenantId))
  {
    forall t | t in Conjuncts(disjunct) ensures OtherTenants(tenantId)(t) {
      SplitTokens(condition, "OR", 0, false, disjunct);
      SplitTokens(disjunct, "AND", 0, false, t);
      assert TenantTest(tenantId)[0] == Word("ORG_ID");
    }
  }

  /** A statement that says nothing of org_id returns another tenant's rows. */
  lemma UnfilteredLeaks(tenantId: string, reading: Reading, original: Reading)
    requires reading.Restricted? ==> Word("ORG_ID") !in reading.condition
    requires !reading.Malformed?
    ensures !Scopes(reading, original, tenantId)
  {
    if reading.Restricted? {
      var d := Disjuncts(reading.condition);
      OtherTenantsPass(tenantId, reading.condition, d[0]);
      assert d[0] in d;
    }
    assert Returns(reading, OtherTenants(tenantId)) && !OtherTenants(tenantId)(TenantTest(tenantId));
  }

  /** With a second alternative, a row of another tenant that satisfies it is returned. */
  lemma SecondDisjunctLeaks(tenantId: string, condition: seq<Token>)
    requires |Disjuncts(condition)| > 1 && Word("ORG_ID") !in condition
    ensures !Scopes(Restricted(Filters(tenantId) + AND + condition), Restricted(condition), tenantId)
  {
    var d := Disjuncts(condition);
    var holds := OtherTenants(tenantId);
    FilteredAccepts(tenantId, condition, holds);
    assert d[1] in d;
    OtherTenantsPass(tenantId, condition, d[1]);
    assert Accepts(Filters(tenantId) + AND + condition, holds) && !holds(TenantTest(tenantId));
  }

  /** Splitting makes up no tokens. */
  lemma {:induction false} SplitTokens(ts: seq<Token>, connective: string, depth: nat, between: bool, part: seq<Token>)
    requires part in Split(ts, connective, depth, between)
    ensures forall t :: t in part ==> t in ts
  {
    if ts != [] {
      if depth == 0 && !between && ts[0] == Word(connective) {
        var r := Split(ts[1..], connective, 0, false);
        if part in r {
          SplitTokens(ts[1..], connective, 0, false, part);
        }
      } else {
        var r := Split(ts[1..], connective, Depth(ts[0], depth), Between(ts[0], depth, between));
        SplitTokens(ts[1..], connective, Depth(ts[0], depth), Between(ts[0], depth, between), r[0]);
        if part in r {
          SplitTokens(ts[1..], connective, Depth(ts[0], depth), Between(ts[0], depth, between), part);
        }
      }
    }
  }

  // ---------- Reading the rewritten SELECT ----------

  const WHERE: seq<Token> := [Word("WHERE")]

  /** No outer tail starts here. */
  predicate TailFree(ts: seq<Token>, depth: nat) {
    ts != [] ==> !(depth == 0 && TailAt(ts)) && TailFree(ts[1..], Depth(ts[0], depth))
  }

  /** OFFSET, FETCH, FOR, WINDOW, a semicolon and the like outside parentheses are a tail. */
  lemma {:induction false} OuterEnderIsTail(head: seq<Token>, t: Token, rest: seq<Token>, depth: nat)
    requires EndsCondition(t) && DepthAfter(head, depth) == 0
    ensures !TailFree(head + ([t] + rest), depth)
  {
    if head == [] {
      assert head + ([t] + rest) == [t] + rest;
    } else {
      assert (head + ([t] + rest))[1..] == head[1..] + ([t] + rest);
      OuterEnderIsTail(head[1..], t, rest, Depth(head[0], depth));
    }
  }

  lemma {:induction false} ReadPast(head: seq<Token>, ts: seq<Token>, depth: nat)
    requires Word("WHERE") !in head && TailFree(head, depth) && (ts == [] || ts[0] != Word("BY"))
    ensures Read(head + ts, depth) == Read(ts, DepthAfter(head, depth))
  {
    if head == [] {
      assert head + ts == ts;
    } else {
      assert (head + ts)[1..] == head[1..] + ts;
      ReadPast(head[1..], ts, Depth(head[0], depth));
    }
  }

  /** An outer WHERE breaks what stands before it. */
  lemma {:induction false} BrokenByWhere(head: seq<Token>, ts: seq<Token>, depth: nat)
    requires DepthAfter(head, depth) == 0 && ts != [] && ts[0] == Word("WHERE")
    ensures Broken(head + ts, depth)
  {
    if head == [] {
      assert head + ts == ts;
    } else {
      assert (head + ts)[1..] == head[1..] + ts;
      BrokenByWhere(head[1..], ts, Depth(head[0], depth));
    }
  }

  /** After an outer tail there is no place for an outer WHERE. */
  lemma {:induction false} ReadTailed(head: seq<Token>, ts: seq<Token>, depth: nat)
    requires Word("WHERE") !in head && !TailFree(head, depth)
    requires DepthAfter(head, depth) == 0 && ts != [] && ts[0] == Word("WHERE")
    ensures Read(head + ts, depth) == Malformed
  {
    assert (head + ts)[1..] == head[1..] + ts;
    if depth == 0 && TailAt(head) {
      BrokenByWhere(head, ts, depth);
    } else {
      ReadTailed(head[1..], ts, Depth(head[0], depth));
    }
  }

  lemma {:induction false} ReadWithoutWhere(ts: seq<Token>, depth: nat)
    requires Word("WHERE") !in ts
    ensures !Read(ts, depth).Restricted?
  {
    if ts != [] {
      ReadWithoutWhere(ts[1..], Depth(ts[0], depth));
    }
  }

  /** Neither opens nor closes a nested expression. */
  predicate Level(p: seq<Token>) {
    forall i :: 0 <= i < |p| ==> !Opens(p[i]) && !Closes(p[i])
  }

  lemma {:induction false} DepthInside(p: seq<Token>, ts: seq<Token>, depth: nat)
    requires depth > 0 && Level(p)
    ensures Read(p + ts, depth) == Read(ts, depth) && Broken(p + ts, depth) == Broken(ts, depth)
  {
    if p == [] {
      assert p + ts == ts;
    } else {
      assert (p + ts)[1..] == p[1..] + ts;
      DepthInside(p[1..], ts, depth);
    }
  }

  lemma {:induction false} BrokenInsert(head: seq<Token>, added: seq<Token>, rest: seq<Token>, depth: nat)
    requires DepthAfter(head, depth) > 0 && Level(added)
    ensures Broken(head + (added + rest), depth) == Broken(head + rest, depth)
  {
    if head == [] {
      assert head + (added + rest) == added + rest && head + rest == rest;
      DepthInside(added, rest, depth);
    } else {
      assert (head + (added + rest))[1..] == head[1..] + (added + rest) && (head + rest)[1..] == head[1..] + rest;
      assert |head| == 1 ==> head[1..] == [];
      BrokenInsert(head[1..], added, rest, Depth(head[0], depth));
    }
  }

  lemma TailInsert(head: seq<Token>, x: seq<Token>, y: seq<Token>)
    requires head != [] && DepthAfter(head, 0) > 0
    ensures TailAt(head + x) <==> TailAt(head + y)
  {
    assert |head| == 1 ==> head[1..] == [];
  }

  /** What is added inside parentheses does not change how the SELECT around them is read. */
  lemma {:induction false} ReadInsert(head: seq<Token>, added: seq<Token>, rest: seq<Token>, depth: nat)
    requires Word("WHERE") !in head && DepthAfter(head, depth) > 0 && Level(added)
    ensures Read(head + (added + rest), depth) == Read(head + rest, depth)
  {
    if head == [] {
      assert head + (added + rest) == added + rest && head + rest == rest;
      DepthInside(added, rest, depth);
    } else {
      assert (head + (added + rest))[1..] == head[1..] + (added + rest) && (head + rest)[1..] == head[1..] + rest;
      if depth == 0 {
        TailInsert(head, added + rest, rest);
        BrokenInsert(head, added, rest, depth);
      }
      ReadInsert(head[1..], added, rest, Depth(head[0], depth));
    }
  }

  lemma {:induction false} ConditionTokens(ts: seq<Token>, depth: nat, t: Token)
    requires t in Condition(ts, depth)
    ensures t in ts
  {
    if t != ts[0] {
      ConditionTokens(ts[1..], Depth(ts[0], depth), t);
    }
  }

  lemma {:induction false} ReadTokens(ts: seq<Token>, depth: nat, t: Token)
    requires Read(ts, depth).Restricted? && t in Read(ts, depth).condition
    ensures t in ts
  {
    if depth == 0 && ts[0] == Word("WHERE") {
      ConditionTokens(ts[1..], 0, t);
    } else {
      ReadTokens(ts[1..], Depth(ts[0], depth), t);
    }
  }

  /** A SELECT that says nothing of org_id is not scoped by leaving it as it is. */
  lemma UnchangedLeaks(ts: seq<Token>, tenantId: string)
    requires Word("ORG_ID") !in ts && Read(ts, 0) != Malformed
    ensures !Scopes(Read(ts, 0), Read(ts, 0), tenantId)
  {
    var reading := Read(ts, 0);
    if reading.Restricted? && Word("ORG_ID") in reading.condition {
      ReadTokens(ts, 0, Word("ORG_ID"));
    }
    UnfilteredLeaks(tenantId, reading, reading);
  }

  lemma {:induction false} BrokenPast(p: seq<Token>, ts: seq<Token>)
    requires Flat(p)
    ensures Broken(p + ts, 0) == Broken(ts, 0)
  {
    if p == [] {
      assert p + ts == ts;
    } else {
      assert (p + ts)[1..] == p[1..] + ts;
      BrokenPast(p[1..], ts);
    }
  }

  lemma ReadWhere(added: seq<Token>, ts: seq<Token>)
    requires Flat(added)
    ensures Read(WHERE + (added + ts), 0) == if Broken(ts, 0) then Malformed else Restricted(added + Condition(ts, 0))
  {
    assert (WHERE + (added + ts))[1..] == added + ts;
    BrokenPast(added, ts);
    ConditionPast(added, ts);
  }

  lemma ConditionScopes(condition: seq<Token>, tenantId: string)
    requires Word("ORG_ID") !in condition
    ensures Scopes(Restricted(Filters(tenantId) + AND + condition), Restricted(condition), tenantId)
        <==> |Disjuncts(condition)| == 1
  {
    if |Disjuncts(condition)| == 1 {
      SingleDisjunctScopes(tenantId, condition);
    } else {
      SecondDisjunctLeaks(tenantId, condition);
    }
  }

  lemma ReadOuterWhere(head: seq<Token>, added: seq<Token>, rest: seq<Token>)
    requires Flat(added) && Word("WHERE") !in head && TailFree(head, 0) && DepthAfter(head, 0) == 0
    requires !Broken(rest, 0)
    ensures Read(head + (WHERE + (added + rest)), 0) == Restricted(added + Condition(rest, 0))
  {
    ReadPast(head, WHERE + (added + rest), 0);
    ReadWhere(added, rest);
  }

  lemma OuterConditionScopes(head: seq<Token>, rest: seq<Token>, tenantId: string)
    requires Word("WHERE") !in head && Word("ORG_ID") !in rest
    requires Read(head + (WHERE + rest), 0) != Malformed && DepthAfter(head, 0) == 0
    ensures Scopes(Read(head + (WHERE + (Filters(tenantId) + AND + rest)), 0),
                   Read(head + (WHERE + rest), 0), tenantId)
        <==> |Disjuncts(Condition(rest, 0))| == 1
  {
    NotTailed(head, rest);
    FiltersFlat(tenantId);
    var condition := Condition(rest, 0);
    assert [] + rest == rest && [] + condition == condition;
    ReadOuterWhere(head, [], rest);
    ReadOuterWhere(head, Filters(tenantId) + AND, rest);
    if Word("ORG_ID") in condition {
      ConditionTokens(rest, 0, Word("ORG_ID"));
    }
    ConditionScopes(condition, tenantId);
  }

  lemma NotTailed(head: seq<Token>, rest: seq<Token>)
    requires Word("WHERE") !in head && Read(head + (WHERE + rest), 0) != Malformed && DepthAfter(head, 0) == 0
    ensures TailFree(head, 0) && !Broken(rest, 0)
  {
    if !TailFree(head, 0) {
      ReadTailed(head, WHERE + rest, 0);
    } else {
      ReadPast(head, WHERE + rest, 0);
      assert (WHERE + rest)[1..] == rest;
    }
  }

  lemma InnerConditionLeaks(head: seq<Token>, rest: seq<Token>, tenantId: string)
    requires Word("WHERE") !in head && Word("ORG_ID") !in head + (WHERE + rest)
    requires DepthAfter(head, 0) > 0 && Read(head + (WHERE + rest), 0) != Malformed
    ensures !Scopes(Read(head + (WHERE + (Filters(tenantId) + AND + rest)), 0),
                    Read(head + (WHERE + rest), 0), tenantId)
  {
    var added := Filters(tenantId) + AND;
    FiltersFlat(tenantId);
    assert Level(WHERE + added);
    ReadInsert(head, WHERE, rest, 0);
    ReadInsert(head, WHERE + added, rest, 0);
    AssocTokens(WHERE, added, rest);
    UnchangedLeaks(head + (WHERE + rest), tenantId);
  }

  /** Filters in front of a condition. */
  lemma WhereScopes(head: seq<Token>, rest: seq<Token>, tenantId: string)
    requires Word("WHERE") !in head && Word("ORG_ID") !in head + (WHERE + rest)
    requires Read(head + (WHERE + rest), 0) != Malformed
    ensures Scopes(Read(head + (WHERE + (Filters(tenantId) + AND + rest)), 0), Read(head + (WHERE + rest), 0), tenantId)
        <==> DepthAfter(head, 0) == 0 && |Disjuncts(Condition(rest, 0))| == 1
  {
    if DepthAfter(head, 0) > 0 {
      InnerConditionLeaks(head, rest, tenantId);
    } else {
      OuterConditionScopes(head, rest, tenantId);
    }
  }

  lemma NothingReturned(tenantId: string)
    ensures !Scopes(Malformed, Unrestricted, tenantId)
  {
    var everything := (t: seq<Token>) => true;
    assert everything(TenantTest(tenantId)) && everything(LIVE_TEST) && !Returns(Malformed, everything);
  }

  lemma FiltersScope(tenantId: string)
    ensures Scopes(Restricted(Filters(tenantId)), Unrestricted, tenantId)
  {
    forall holds: seq<Token> -> bool
      ensures Returns(Restricted(Filters(tenantId)), holds) <==> holds(TenantTest(tenantId)) && holds(LIVE_TEST)
    {
      FiltersAccept(tenantId, holds);
    }
  }

  lemma NoTailCondition(tail: seq<Token>)
    requires (tail == [] || TailAt(tail)) && Read(tail, 0) != Malformed && Word("WHERE") !in tail
    ensures Condition(tail, 0) == [] && !Broken(tail, 0) && Read(tail, 0) == Unrestricted
  {
  }

  lemma OuterClauseScopes(head: seq<Token>, tail: seq<Token>, tenantId: string)
    requires Word("WHERE") !in head + tail && (tail == [] || TailAt(tail))
    requires Read(head + tail, 0) != Malformed && TailFree(head, 0) && DepthAfter(head, 0) == 0
    ensures Scopes(Read(head + (WHERE + (Filters(tenantId) + tail)), 0), Read(head + tail, 0), tenantId)
  {
    ReadPast(head, tail, 0);
    NoTailCondition(tail);
    FiltersFlat(tenantId);
    ReadOuterWhere(head, Filters(tenantId), tail);
    assert Filters(tenantId) + [] == Filters(tenantId);
    FiltersScope(tenantId);
  }

  lemma InnerClauseLeaks(head: seq<Token>, tail: seq<Token>, tenantId: string)
    requires Word("WHERE") !in head && Word("ORG_ID") !in head + tail
    requires Read(head + tail, 0) != Malformed && DepthAfter(head, 0) > 0
    ensures !Scopes(Read(head + (WHERE + (Filters(tenantId) + tail)), 0), Read(head + tail, 0), tenantId)
  {
    FiltersFlat(tenantId);
    assert Level(WHERE + Filters(tenantId));
    ReadInsert(head, WHERE + Filters(tenantId), tail, 0);
    AssocTokens(WHERE, Filters(tenantId), tail);
    UnchangedLeaks(head + tail, tenantId);
  }

  /** Filters as a clause of their own, at the end or in front of a tail keyword. */
  lemma NewClauseScopes(head: seq<Token>, tail: seq<Token>, tenantId: string)
    requires Word("WHERE") !in head + tail && Word("ORG_ID") !in head + tail && (tail == [] || TailAt(tail))
    requires Read(head + tail, 0) != Malformed
    ensures Scopes(Read(head + (WHERE + (Filters(tenantId) + tail)), 0), Read(head + tail, 0), tenantId)
        <==> TailFree(head, 0) && DepthAfter(head, 0) == 0
  {
    if DepthAfter(head, 0) > 0 {
      InnerClauseLeaks(head, tail, tenantId);
    } else if TailFree(head, 0) {
      OuterClauseScopes(head, tail, tenantId);
    } else {
      ReadTailed(head, WHERE + (Filters(tenantId) + tail), 0);
      ReadWithoutWhere(head + tail, 0);
      NothingReturned(tenantId);
    }
  }
}
