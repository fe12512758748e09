/** Filters in statements that may combine several SELECTs with UNION, EXCEPT or INTERSECT. */
module SqlStatement {
  import opened SqlReader
  import opened SqlFilterMeaning

  /** Every SELECT of the statement is scoped. */
  ghost predicate AllScoped(filtered: seq<Reading>, original: seq<Reading>, tenantId: string) {
    |filtered| == |original| && forall i :: 0 <= i < |filtered| ==> Scopes(filtered[i], original[i], tenantId)
  }

  ghost predicate WellFormed(readings: seq<Reading>) {
    forall i :: 0 <= i < |readings| ==> readings[i] != Malformed
  }

  function Extend(a: seq<seq<Token>>, b: seq<seq<Token>>): seq<seq<Token>>
    requires |a| > 0 && |b| > 0
  {
    a[..|a| - 1] + [a[|a| - 1] + b[0]] + b[1..]
  }

  lemma {:induction false} ArmsAppend(p: seq<Token>, ts: seq<Token>, depth: nat)
    ensures Arms(p + ts, depth) == Extend(Arms(p, depth), Arms(ts, DepthAfter(p, depth)))
  {
    var b := Arms(ts, DepthAfter(p, depth));
    if p == [] {
      assert p + ts == ts;
      assert [] + b[0] == b[0] && b == [b[0]] + b[1..];
    } else {
      assert (p + ts)[1..] == p[1..] + ts;
      var combines := depth == 0 && CombinesSelects(p[0]);
      var a := Arms(p[1..], if combines then 0 else Depth(p[0], depth));
      ArmsAppend(p[1..], ts, if combines then 0 else Depth(p[0], depth));
      if combines {
        ExtendCons([[]], a, b);
      } else {
        ExtendFirst(p[0], a, b);
      }
    }
  }

  lemma ExtendCons(first: seq<seq<Token>>, a: seq<seq<Token>>, b: seq<seq<Token>>)
    requires |a| > 0 && |b| > 0
    ensures Extend(first + a, b) == first + Extend(a, b)
  {
  }

  lemma ExtendFirst(t: Token, a: seq<seq<Token>>, b: seq<seq<Token>>)
    requires |a| > 0 && |b| > 0
    ensures Extend([[t] + a[0]] + a[1..], b) == [[t] + Extend(a, b)[0]] + Extend(a, b)[1..]
  {
    var longer := [[t] + a[0]] + a[1..];
    if |a| == 1 {
      AssocTokens([t], a[0], b[0]);
      assert longer == [[t] + a[0]];
    } else {
      assert longer[|longer| - 1] == a[|a| - 1];
      assert Extend(a, b)[0] == a[0];
    }
  }

  predicate Plain(p: seq<Token>) {
    Level(p) && forall i :: 0 <= i < |p| ==> !CombinesSelects(p[i])
  }

  lemma {:induction false} ArmsPlain(p: seq<Token>, ts: seq<Token>, depth: nat)
    requires Plain(p)
    ensures var b := Arms(ts, depth); Arms(p + ts, depth) == [p + b[0]] + b[1..]
  {
    var b := Arms(ts, depth);
    if p == [] {
      assert p + ts == ts;
      assert [] + b[0] == b[0] && b == [b[0]] + b[1..];
    } else {
      assert (p + ts)[1..] == p[1..] + ts;
      ArmsPlain(p[1..], ts, depth);
      AssocTokens([p[0]], p[1..], b[0]);
      assert [p[0]] + p[1..] == p;
    }
  }

  lemma {:induction false} OneArm(ts: seq<Token>, depth: nat)
    requires |Arms(ts, depth)| == 1
    ensures Arms(ts, depth) == [ts]
  {
    if ts != [] {
      assert !(depth == 0 && CombinesSelects(ts[0]));
      OneArm(ts[1..], Depth(ts[0], depth));
      assert [ts[0]] + ts[1..] == ts;
    }
  }

  lemma {:induction false} ArmTokens(ts: seq<Token>, depth: nat, arm: seq<Token>, t: Token)
    requires arm in Arms(ts, depth) && t in arm
    ensures t in ts
  {
    if ts != [] {
      var combines := depth == 0 && CombinesSelects(ts[0]);
      var after := if combines then 0 else Depth(ts[0], depth);
      var r := Arms(ts[1..], after);
      if arm in r {
        ArmTokens(ts[1..], after, arm, t);
      } else if t != ts[0] {
        assert t in r[0];
        ArmTokens(ts[1..], after, r[0], t);
      }
    }
  }

  /** What is added changes one arm of a statement and leaves the number of arms. */
  lemma ArmsInsert(head: seq<Token>, added: seq<Token>, rest: seq<Token>) returns (k: nat)
    requires Plain(added)
    ensures var before, after := Arms(head + rest, 0), Arms(head + (added + rest), 0);
            && |after| == |before| && k < |before|
            && forall i :: 0 <= i < |before| && i != k ==> after[i] == before[i]
  {
    ArmsAppend(head, rest, 0);
    ArmsAppend(head, added + rest, 0);
    ArmsPlain(added, rest, DepthAfter(head, 0));
    k := |Arms(head, 0)| - 1;
    ExtendChanges(Arms(head, 0), Arms(rest, DepthAfter(head, 0)), added);
  }

  lemma ExtendChanges(a: seq<seq<Token>>, b: seq<seq<Token>>, added: seq<Token>)
    requires |a| > 0 && |b| > 0
    ensures var before, after := Extend(a, b), Extend(a, [added + b[0]] + b[1..]);
            && |after| == |before| == |a| + |b| - 1
            && forall i :: 0 <= i < |before| && i != |a| - 1 ==> after[i] == before[i]
  {
  }

  /** Filters go into one SELECT only, so combined SELECTs are never all scoped. */
  lemma CombinedLeaks(head: seq<Token>, added: seq<Token>, rest: seq<Token>, tenantId: string)
    requires Plain(added) && Word("ORG_ID") !in head + rest
    requires WellFormed(Statement(head + rest)) && |Arms(head + rest, 0)| > 1
    ensures !AllScoped(Statement(head + (added + rest)), Statement(head + rest), tenantId)
  {
    var k := ArmsInsert(head, added, rest);
    var before, after := Arms(head + rest, 0), Arms(head + (added + rest), 0);
    var i := if k == 0 then 1 else 0;
    assert after[i] == before[i] && before[i] in before;
    if Word("ORG_ID") in before[i] {
      ArmTokens(head + rest, 0, before[i], Word("ORG_ID"));
    }
    assert Statement(head + rest)[i] == Read(before[i], 0) != Malformed;
    UnchangedLeaks(before[i], tenantId);
    assert Statement(head + (added + rest))[i] == Statement(head + rest)[i];
  }

  lemma OneArmBoth(head: seq<Token>, added: seq<Token>, rest: seq<Token>)
    requires Plain(added) && |Arms(head + rest, 0)| == 1
    ensures Statement(head + rest) == [Read(head + rest, 0)]
    ensures Statement(head + (added + rest)) == [Read(head + (added + rest), 0)]
  {
    var k := ArmsInsert(head, added, rest);
    OneArm(head + rest, 0);
    OneArm(head + (added + rest), 0);
  }

  /** Filters in front of the first condition of a statement. */
  lemma StatementWhereScopes(head: seq<Token>, rest: seq<Token>, tenantId: string)
    requires Word("WHERE") !in head && Word("ORG_ID") !in head + (WHERE + rest)
    requires WellFormed(Statement(head + (WHERE + rest)))
    ensures AllScoped(Statement(head + (WHERE + (Filters(tenantId) + AND + rest))),
                      Statement(head + (WHERE + rest)), tenantId)
        <==> && |Arms(head + (WHERE + rest), 0)| == 1
             && DepthAfter(head, 0) == 0 && |Disjuncts(Condition(rest, 0))| == 1
  {
    var added := Filters(tenantId) + AND;
    FiltersFlat(tenantId);
    AssocTokens(head, WHERE, rest);
    AssocTokens(head, WHERE, added + rest);
    if |Arms(head + (WHERE + rest), 0)| > 1 {
      CombinedLeaks(head + WHERE, added, rest, tenantId);
    } else {
      OneArmBoth(head + WHERE, added, rest);
      assert Statement(head + (WHERE + rest))[0] != Malformed;
      WhereScopes(head, rest, tenantId);
    }
  }

  /** Filters as a new clause of a statement. */
  lemma StatementClauseScopes(head: seq<Token>, tail: seq<Token>, tenantId: string)
    requires Word("WHERE") !in head + tail && Word("ORG_ID") !in head + tail && (tail == [] || TailAt(tail))
    requires WellFormed(Statement(head + tail))
    ensures AllScoped(Statement(head + (WHERE + (Filters(tenantId) + tail))), Statement(head + tail), tenantId)
        <==> |Arms(head + tail, 0)| == 1 && TailFree(head, 0) && DepthAfter(head, 0) == 0
  {
    var added := WHERE + Filters(tenantId);
    FiltersFlat(tenantId);
    AssocTokens(WHERE, Filters(tenantId), tail);
    if |Arms(head + tail, 0)| > 1 {
      CombinedLeaks(head, added, tail, tenantId);
    } else {
      OneArmBoth(head, added, tail);
      assert Statement(head + tail)[0] != Malformed;
      NewClauseScopes(head, tail, tenantId);
    }
  }
}
