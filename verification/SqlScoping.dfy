/**
 The injected filters from text to rows: a rewritten SELECT returns the
 tenant's undeleted rows of the original exactly when the filters land outside
 parentheses, before the tail, and in front of a condition without an outer OR.
 */
module SqlScoping {
  import opened Wrappers
  import opened SqlText
  import opened SqlReader
  import opened SqlFilters
  import opened SqlFilterMeaning
  import opened SqlStatement
  import opened SqlOpenLiteral

  // ---------- From text to tokens ----------

  lemma {:induction false} FoldedIsWord(a: string, word: string)
    requires SameFolded(a, word) && forall k :: 0 <= k < |word| ==> IsWord(Up(word[k]))
    ensures |a| == |word| && forall k :: 0 <= k < |a| ==> IsWord(a[k])
  {
    assert |Upper(a)| == |Upper(word)|;
    forall k | 0 <= k < |a| ensures IsWord(a[k]) {
      assert Upper(a)[k] == Upper(word)[k];
    }
  }

  lemma FoundAndRest(sql: string, i: nat, n: nat)
    requires 0 < n && i + n <= |sql|
    ensures sql[i..i + n] + sql[i + n..] == sql[i..] && sql[i..i + n][0] == sql[i]
  {
  }

  /** A keyword found by its regular expression, after closed text, is read as that keyword. */
  lemma KeywordTokens(sql: string, word: string, i: nat)
    requires MatchAt(sql, word, i) && word != "" && (forall k :: 0 <= k < |word| ==> IsWord(Up(word[k])))
    ensures i + |word| <= |sql| && Tokens(sql[i..]) == [Word(Upper(word))] + Tokens(sql[i + |word|..])
    ensures EndsWord(sql[i + |word|..]) && IsWord(sql[i])
  {
    var found, rest := sql[i..i + |word|], sql[i + |word|..];
    FoundAndRest(sql, i, |word|);
    FoldedIsWord(found, word);
    TokensWord(found, rest);
  }

  lemma HeadCut(sql: string, i: nat)
    requires i < |sql| && IsWord(sql[i]) && (i == 0 || !IsWord(sql[i - 1]))
    ensures Cut(sql[..i], sql[i..])
  {
  }

  lemma HeadTokens(sql: string, i: nat)
    requires i < |sql| && Closed(sql[..i]) && IsWord(sql[i]) && (i == 0 || !IsWord(sql[i - 1]))
    ensures Tokens(sql) == Tokens(sql[..i]) + Tokens(sql[i..])
  {
    var head, rest := sql[..i], sql[i..];
    HeadCut(sql, i);
    TokensAppend(head, rest);
    assert head + rest == sql;
  }

  /** The added text in front of a condition. */
  lemma AddedTokens(tenantId: string, rest: string)
    requires EndsWord(rest)
    ensures Tokens("WHERE " + Combined(tenantId) + " AND" + rest) == WHERE + (Filters(tenantId) + AND + Tokens(rest))
  {
    var last := " " + ("AND" + rest);
    UpperWords();
    SpacedWord("AND", rest);
    CombinedTokens(tenantId, last);
    AssocTokens(Filters(tenantId), AND, Tokens(rest));
    WhereWord(Combined(tenantId) + last);
    AddedText(Combined(tenantId), rest);
  }

  lemma AddedText(combined: string, rest: string)
    ensures "WHERE " + combined + " AND" + rest == "WHERE" + (" " + (combined + (" " + ("AND" + rest))))
  {
    RegroupAdded("WHERE", " ", combined, "AND", rest);
    assert "WHERE " == "WHERE" + " " && " AND" == " " + "AND";
  }

  lemma RegroupAdded(a: string, b: string, c: string, d: string, e: string)
    ensures (a + b) + c + (b + d) + e == a + (b + (c + (b + (d + e))))
  {
  }

  lemma WhereWord(rest: string)
    ensures Tokens("WHERE" + (" " + rest)) == WHERE + Tokens(rest)
  {
    UpperWords();
    TokensSpace(rest);
    TokensWord("WHERE", " " + rest);
  }

  lemma ClauseTokens(tenantId: string, tail: string)
    ensures Tokens("WHERE " + Combined(tenantId) + " " + tail) == WHERE + (Filters(tenantId) + Tokens(tail))
  {
    var c := Combined(tenantId);
    TokensSpace(tail);
    CombinedTokens(tenantId, " " + tail);
    WhereWord(c + (" " + tail));
    RegroupClause("WHERE", " ", c, tail);
    assert "WHERE " == "WHERE" + " ";
  }

  lemma RegroupClause(a: string, b: string, c: string, d: string)
    ensures (a + b) + c + b + d == a + (b + (c + (b + d)))
  {
  }

  lemma WhereKeyword(sql: string, i: nat)
    requires MatchAt(sql, "WHERE", i)
    ensures i + 5 <= |sql| && IsWord(sql[i]) && EndsWord(sql[i + 5..])
    ensures Tokens(sql[i..]) == WHERE + Tokens(sql[i + 5..])
  {
    UpperWords();
    KeywordTokens(sql, "WHERE", i);
  }

  lemma FoldedPart(sql: string, word: string, i: nat, from: nat, to: nat)
    requires FoldedAt(sql, word, i) && from <= to <= |word|
    ensures FoldedAt(sql, word[from..to], i + from)
  {
    var found, part := sql[i..i + |word|], sql[i + from..i + to];
    forall k | 0 <= k < to - from ensures Upper(part)[k] == Upper(word[from..to])[k] {
      assert Upper(found)[from + k] == Upper(word)[from + k];
    }
    assert Upper(part) == Upper(word[from..to]);
    assert |part| == |word[from..to]|;
  }

  /** A match of `first BY`, with one space, is a match of each word. */
  lemma ByParts(sql: string, word: string, first: string, i: nat)
    requires MatchAt(sql, word, i) && |word| == |first| + 3
    requires word[..|first|] == first && word[|first|] == ' ' && word[|first| + 1..] == "BY"
    ensures i + |word| <= |sql| && sql[i + |first|] == ' '
    ensures MatchAt(sql, first, i) && MatchAt(sql, "BY", i + |first| + 1)
  {
    var n := |first|;
    assert word[0..n] == first && word[n + 1..n + 3] == "BY";
    FoldedPart(sql, word, i, 0, n);
    FoldedPart(sql, word, i, n + 1, n + 3);
    SpaceFolded(sql, word, i, n);
  }

  lemma SpaceFolded(sql: string, word: string, i: nat, n: nat)
    requires FoldedAt(sql, word, i) && n < |word| && word[n] == ' '
    ensures sql[i + n] == ' '
  {
    assert Upper(sql[i..i + |word|])[n] == Upper(word)[n];
  }

  lemma SpaceSkipped(sql: string, i: nat)
    requires i < |sql| && sql[i] == ' '
    ensures Tokens(sql[i..]) == Tokens(sql[i + 1..])
  {
    TokensSpace(sql[i + 1..]);
    assert sql[i..] == " " + sql[i + 1..];
  }

  predicate ByAfter(ts: seq<Token>, first: Token) {
    |ts| > 1 && ts[0] == first && ts[1] == Word("BY")
  }

  lemma ByTokens(sql: string, first: string, i: nat)
    requires i + |first| < |sql| && sql[i + |first|] == ' '
    requires MatchAt(sql, first, i) && MatchAt(sql, "BY", i + |first| + 1)
    requires first != "" && (forall k :: 0 <= k < |first| ==> IsWord(Up(first[k])))
    ensures i < |sql| && IsWord(sql[i]) && ByAfter(Tokens(sql[i..]), Word(Upper(first)))
  {
    var n := i + |first|;
    KeywordTokens(sql, first, i);
    var rest := SpacedBy(sql, n);
    TwoTokens(Tokens(sql[i..]), Word(Upper(first)), Tokens(sql[n..]), rest);
  }

  lemma SpacedBy(sql: string, n: nat) returns (rest: seq<Token>)
    requires n < |sql| && sql[n] == ' ' && MatchAt(sql, "BY", n + 1)
    ensures Tokens(sql[n..]) == [Word("BY")] + rest
  {
    SpaceSkipped(sql, n);
    ByToken(sql, n + 1);
    rest := Tokens(sql[n + 3..]);
  }

  lemma TwoTokens(ts: seq<Token>, first: Token, more: seq<Token>, rest: seq<Token>)
    requires ts == [first] + more && more == [Word("BY")] + rest
    ensures ByAfter(ts, first)
  {
  }

  lemma ByToken(sql: string, i: nat)
    requires MatchAt(sql, "BY", i)
    ensures i + 2 <= |sql| && Tokens(sql[i..]) == [Word("BY")] + Tokens(sql[i + 2..])
  {
    assert Upper("BY") == "BY";
    KeywordTokens(sql, "BY", i);
  }

  lemma OrderTokens(sql: string, i: nat)
    requires MatchAt(sql, "ORDER BY", i)
    ensures i < |sql| && IsWord(sql[i]) && TailAt(Tokens(sql[i..]))
  {
    assert "ORDER BY"[..5] == "ORDER" && "ORDER BY"[6..] == "BY" && Upper("ORDER") == "ORDER";
    ByParts(sql, "ORDER BY", "ORDER", i);
    ByTokens(sql, "ORDER", i);
  }

  lemma GroupTokens(sql: string, i: nat)
    requires MatchAt(sql, "GROUP BY", i)
    ensures i < |sql| && IsWord(sql[i]) && TailAt(Tokens(sql[i..]))
  {
    assert "GROUP BY"[..5] == "GROUP" && "GROUP BY"[6..] == "BY" && Upper("GROUP") == "GROUP";
    ByParts(sql, "GROUP BY", "GROUP", i);
    ByTokens(sql, "GROUP", i);
  }

  lemma LimitTokens(sql: string, i: nat)
    requires MatchAt(sql, "LIMIT", i) || MatchAt(sql, "HAVING", i)
    ensures i < |sql| && IsWord(sql[i]) && TailAt(Tokens(sql[i..]))
  {
    assert Upper("LIMIT") == "LIMIT" && Upper("HAVING") == "HAVING";
    if MatchAt(sql, "LIMIT", i) {
      KeywordTokens(sql, "LIMIT", i);
    } else {
      KeywordTokens(sql, "HAVING", i);
    }
  }

  /** What the tail expression finds is read as a tail. */
  lemma TailTokens(sql: string, i: nat)
    requires MatchAnyAt(sql, TAIL_WORDS, i)
    ensures i < |sql| && IsWord(sql[i]) && (i == 0 || !IsWord(sql[i - 1])) && TailAt(Tokens(sql[i..]))
  {
    var w :| w in TAIL_WORDS && MatchAt(sql, w, i);
    assert w == "ORDER BY" || w == "LIMIT" || w == "GROUP BY" || w == "HAVING";
    if w == "ORDER BY" {
      OrderTokens(sql, i);
    } else if w == "GROUP BY" {
      GroupTokens(sql, i);
    } else {
      LimitTokens(sql, i);
    }
  }

  /** Neither the word nor what cannot be it is read from a part that ends between words. */
  lemma PrefixNotRead(sql: string, word: string, i: nat)
    requires i <= |sql| && (i == 0 || i == |sql| || !IsWord(sql[i - 1])) && word != "" && IsWord(Up(word[|word| - 1]))
    requires forall k :: 0 <= k < i ==> !MatchAt(sql, word, k)
    ensures Word(Upper(word)) !in Tokens(sql[..i])
  {
    var head := sql[..i];
    var n := |word|;
    forall k | 0 <= k < |head| && FoldedAt(head, word, k) ensures !MatchAt(head, word, k) {
      assert head[k..k + n] == sql[k..k + n];
      assert Upper(head[k..k + n])[n - 1] == Upper(word)[n - 1];
      assert IsWord(head[k + n - 1]);
      assert !MatchAt(sql, word, k);
    }
    UnmatchedNotRead(head, word, 0);
    assert head[0..] == head;
  }

  lemma OrgIdNotRead(sql: string, i: nat)
    requires !Includes(sql, "org_id") && i <= |sql| && WordStart(sql, i)
    ensures Word("ORG_ID") !in Tokens(sql[i..])
  {
    UpperWords();
    forall k | 0 <= k < |sql| ensures !MatchAt(sql, "org_id", k) {
      assert !FoldedAt(sql, "org_id", k);
    }
    UnmatchedNotRead(sql, "org_id", i);
  }

  // ---------- When the injection scopes ----------

  /** Where the filters go in. */
  function InsertionPoint(sql: string): (i: nat)
    ensures i <= |sql|
  {
    match FindWhere(sql)
    case Some(i) => i
    case None => if FindTail(sql).Some? then FindTail(sql).value else |sql|
  }

  function Head(sql: string): seq<Token> {
    Tokens(sql[..InsertionPoint(sql)])
  }

  /** The restriction each SELECT of the text puts on its rows. */
  function Meaning(sql: string): seq<Reading> {
    Statement(Tokens(sql))
  }

  lemma WhereNotBefore(sql: string, i: nat)
    requires i <= |sql| && (i == 0 || i == |sql| || !IsWord(sql[i - 1]))
    requires forall k :: 0 <= k < i ==> !MatchAt(sql, "WHERE", k)
    ensures Word("WHERE") !in Tokens(sql[..i])
  {
    UpperWords();
    PrefixNotRead(sql, "WHERE", i);
  }

  lemma WhereMeaning(sql: string, i: nat)
    requires MatchAt(sql, "WHERE", i) && Closed(sql[..i])
    ensures i + 5 <= |sql|
    ensures Tokens(sql) == Tokens(sql[..i]) + (WHERE + Tokens(sql[i + 5..]))
  {
    WhereKeyword(sql, i);
    HeadTokens(sql, i);
  }

  lemma AtWhereMeaning(sql: string, i: nat, tenantId: string)
    requires MatchAt(sql, "WHERE", i) && Closed(sql[..i]) && Inert(tenantId + "'")
    ensures i + 5 <= |sql|
    ensures Tokens(AtWhere(sql, i, tenantId))
         == Tokens(sql[..i]) + (WHERE + (Filters(tenantId) + AND + Tokens(sql[i + 5..])))
  {
    WhereKeyword(sql, i);
    ReplaceIsPlain(sql, i, tenantId);
    var head, added, rest := sql[..i], "WHERE " + Combined(tenantId) + " AND", sql[i + 5..];
    AddedTokens(tenantId, rest);
    CutKeyword(sql, i, added, rest);
    SqlLiteral.Assoc(head, added, rest);
    TokensAppend(head, added + rest);
  }

  lemma CutKeyword(sql: string, i: nat, added: string, rest: string)
    requires i < |sql| && (i == 0 || !IsWord(sql[i - 1])) && added != "" && added[0] != '\''
    ensures Cut(sql[..i], added + rest)
  {
  }

  lemma BeforeTailMeaning(sql: string, i: nat, tenantId: string)
    requires MatchAnyAt(sql, TAIL_WORDS, i) && i < |sql| && Closed(sql[..i])
    ensures Tokens(BeforeTail(sql, i, tenantId)) == Tokens(sql[..i]) + (WHERE + (Filters(tenantId) + Tokens(sql[i..])))
  {
    var head, tail := sql[..i], sql[i..];
    TailTokens(sql, i);
    var added := "WHERE " + Combined(tenantId) + " ";
    ClauseTokens(tenantId, tail);
    CutKeyword(sql, i, added, tail);
    SqlLiteral.Assoc(head, added, tail);
    TokensAppend(head, added + tail);
  }

  lemma AtEndMeaning(sql: string, tenantId: string)
    requires Closed(sql)
    ensures Tokens(AtEnd(sql, tenantId)) == Tokens(sql) + (WHERE + (Filters(tenantId) + []))
  {
    var clause := " WHERE " + Combined(tenantId);
    TokensAppend(sql, clause);
    EndText(Combined(tenantId));
    TokensSpace("WHERE" + (" " + Combined(tenantId)));
    WhereWord(Combined(tenantId));
    CombinedTokens(tenantId, "");
    assert Combined(tenantId) + "" == Combined(tenantId);
  }

  lemma EndText(combined: string)
    ensures " WHERE " + combined == " " + ("WHERE" + (" " + combined))
  {
    assert " WHERE " == " " + ("WHERE" + " ");
    RegroupClause(" ", "WHERE", " ", combined);
  }

  /** Does the statement have one SELECT? */
  predicate Single(sql: string) {
    |Arms(Tokens(sql), 0)| == 1
  }

  /** A well-formed SELECT that nowhere mentions org_id. */
  ghost predicate Unscoped(sql: string) {
    !Includes(sql, "org_id") && WellFormed(Meaning(sql))
  }

  lemma UnscopedTokens(sql: string)
    requires Unscoped(sql)
    ensures Word("ORG_ID") !in Tokens(sql)
  {
    OrgIdNotRead(sql, 0);
    assert sql[0..] == sql;
  }

  /**
   Is there one SELECT, and do the filters go where they restrict it: outside
   parentheses, before its tail, in front of at most one alternative?
   */
  predicate InsertsWell(sql: string) {
    && Single(sql) && DepthAfter(Head(sql), 0) == 0
    && match FindWhere(sql)
       case Some(i) => |Disjuncts(Condition(Tokens(sql[i + 5..]), 0))| == 1
       case None => TailFree(Head(sql), 0)
  }

  /** Filters in front of an existing condition. */
  lemma AtWhereScopes(sql: string, i: nat, tenantId: string)
    requires FindWhere(sql) == Some(i) && Closed(sql[..i]) && Inert(tenantId + "'") && Unscoped(sql)
    ensures i + 5 <= |sql|
    ensures AllScoped(Meaning(AtWhere(sql, i, tenantId)), Meaning(sql), tenantId)
        <==> InsertsWell(sql)
  {
    WhereKeyword(sql, i);
    WhereNotBefore(sql, i);
    WhereMeaning(sql, i);
    AtWhereMeaning(sql, i, tenantId);
    UnscopedTokens(sql);
    StatementWhereScopes(Tokens(sql[..i]), Tokens(sql[i + 5..]), tenantId);
  }

  lemma NoWhereRead(sql: string)
    requires FindWhere(sql).None?
    ensures Word("WHERE") !in Tokens(sql)
  {
    WhereNotBefore(sql, |sql|);
    assert sql[..|sql|] == sql;
  }

  lemma BeforeTailScopes(sql: string, i: nat, tenantId: string)
    requires FindWhere(sql).None? && FindTail(sql) == Some(i) && Closed(sql[..i]) && Unscoped(sql)
    ensures AllScoped(Meaning(BeforeTail(sql, i, tenantId)), Meaning(sql), tenantId)
        <==> InsertsWell(sql)
  {
    NoWhereRead(sql);
    TailTokens(sql, i);
    HeadTokens(sql, i);
    BeforeTailMeaning(sql, i, tenantId);
    UnscopedTokens(sql);
    StatementClauseScopes(Tokens(sql[..i]), Tokens(sql[i..]), tenantId);
  }

  lemma AtEndScopes(sql: string, tenantId: string)
    requires FindWhere(sql).None? && FindTail(sql).None? && Closed(sql) && Unscoped(sql)
    ensures AllScoped(Meaning(AtEnd(sql, tenantId)), Meaning(sql), tenantId) <==> InsertsWell(sql)
  {
    assert sql[..|sql|] == sql;
    NoWhereRead(sql);
    AtEndMeaning(sql, tenantId);
    UnscopedTokens(sql);
    assert Tokens(sql) + [] == Tokens(sql);
    StatementClauseScopes(Tokens(sql), [], tenantId);
  }

  /** The text up to the insertion point ends inside a literal. */
  predicate InLiteral(sql: string) {
    !Closed(sql[..InsertionPoint(sql)])
  }

  lemma AtWhereInLiteral(sql: string, i: nat, tenantId: string)
    requires MatchAt(sql, "WHERE", i) && !Closed(sql[..i]) && Inert(tenantId + "'") && Innocent(tenantId)
    requires !Includes(sql, "org_id")
    ensures i + 5 <= |sql| && Word("ORG_ID") !in Tokens(AtWhere(sql, i, tenantId))
  {
    WhereKeyword(sql, i);
    var head, rest := sql[..i], sql[i + 5..];
    ExcludesHead(sql, "org_id", i);
    ExcludesTail(sql, "org_id", i + 5);
    if Includes(" AND", "org_id") {
      HasG(" AND");
    }
    UpperWords();
    ExcludesConcat(" AND", rest, "org_id");
    InsertedInLiteral(head, "", tenantId, " AND" + rest);
    ReplaceIsPlain(sql, i, tenantId);
    InsertedText(tenantId, " AND");
    RegroupInserted(head, "", CLAUSE_START, SqlLiteral.Escape(tenantId), SOFT_DELETE_TEST, " AND", rest);
  }

  lemma RegroupInserted(h: string, s: string, c: string, e: string, d: string, n: string, r: string)
    ensures h + (s + (c + (e + (d + (n + r))))) == h + (s + (c + (e + (d + n)))) + r
    ensures h + (c + (e + (d + n))) == h + ("" + (c + (e + (d + n))))
  {
    assert "" + (c + (e + (d + n))) == c + (e + (d + n));
  }

  lemma BeforeTailInLiteral(sql: string, i: nat, tenantId: string)
    requires i <= |sql| && !Closed(sql[..i]) && Innocent(tenantId) && !Includes(sql, "org_id")
    ensures Word("ORG_ID") !in Tokens(BeforeTail(sql, i, tenantId))
  {
    var head, tail := sql[..i], sql[i..];
    ExcludesHead(sql, "org_id", i);
    ExcludesTail(sql, "org_id", i);
    if Includes(" ", "org_id") {
      HasG(" ");
    }
    UpperWords();
    ExcludesConcat(" ", tail, "org_id");
    InsertedInLiteral(head, "", tenantId, " " + tail);
    InsertedText(tenantId, " ");
    RegroupInserted(head, "", CLAUSE_START, SqlLiteral.Escape(tenantId), SOFT_DELETE_TEST, " ", tail);
  }

  lemma AtEndInLiteral(sql: string, tenantId: string)
    requires !Closed(sql) && Innocent(tenantId) && !Includes(sql, "org_id")
    ensures Word("ORG_ID") !in Tokens(AtEnd(sql, tenantId))
  {
    if Includes("", "org_id") {
      HasG("");
    }
    InsertedInLiteral(sql, " ", tenantId, "");
    InsertedText(tenantId, "");
    assert "WHERE " + Combined(tenantId) + "" == "WHERE " + Combined(tenantId);
    assert " WHERE " == " " + "WHERE ";
    SqlLiteral.Assoc(" ", "WHERE ", Combined(tenantId));
  }

  /** Filters that land inside a literal scope nothing. */
  lemma InLiteralLeaks(sql: string, tenantId: string)
    requires StartsSelect(Trim(sql)) && Unscoped(sql) && InLiteral(sql) && Innocent(tenantId)
    requires FindWhere(sql).Some? ==> Inert(tenantId + "'")
    ensures !AllScoped(Meaning(InjectFilters(sql, tenantId)), Meaning(sql), tenantId)
  {
    match FindWhere(sql) {
      case Some(i) => AtWhereInLiteral(sql, i, tenantId);
      case None =>
        match FindTail(sql) {
          case Some(i) => BeforeTailInLiteral(sql, i, tenantId);
          case None =>
            assert sql[..|sql|] == sql;
            AtEndInLiteral(sql, tenantId);
        }
    }
    UnreadLeaks(Tokens(InjectFilters(sql, tenantId)), Tokens(sql), tenantId);
  }

  lemma InjectScopesOutside(sql: string, tenantId: string)
    requires StartsSelect(Trim(sql)) && Unscoped(sql) && !InLiteral(sql)
    requires FindWhere(sql).Some? ==> Inert(tenantId + "'")
    ensures AllScoped(Meaning(InjectFilters(sql, tenantId)), Meaning(sql), tenantId) <==> InsertsWell(sql)
  {
    match FindWhere(sql)
    case Some(i) => AtWhereScopes(sql, i, tenantId);
    case None =>
      match FindTail(sql)
      case Some(i) => BeforeTailScopes(sql, i, tenantId);
      case None =>
        assert sql[..|sql|] == sql;
        AtEndScopes(sql, tenantId);
  }

  /**
   A rewritten statement returns exactly the original's rows that are the
   tenant's and not deleted if, and only if, the filters are well inserted,
   and not into a literal.
   */
  lemma InjectScopes(sql: string, tenantId: string)
    requires StartsSelect(Trim(sql)) && Unscoped(sql)
    requires FindWhere(sql).Some? ==> Inert(tenantId + "'")
    requires InLiteral(sql) ==> Innocent(tenantId)
    ensures AllScoped(Meaning(InjectFilters(sql, tenantId)), Meaning(sql), tenantId)
        <==> !InLiteral(sql) && InsertsWell(sql)
  {
    if InLiteral(sql) {
      InLiteralLeaks(sql, tenantId);
    } else {
      InjectScopesOutside(sql, tenantId);
    }
  }

  // ---------- Statements that are left as they are ----------

  /** Every alternative of the condition asks for both tests. */
  predicate AsksForBoth(condition: seq<Token>, tenantId: string) {
    forall d :: d in Disjuncts(condition) ==> TenantTest(tenantId) in Conjuncts(d) && LIVE_TEST in Conjuncts(d)
  }

  /** A SELECT that is scoped as it stands, or returns nothing because it is malformed. */
  predicate ScopedAlready(reading: Reading, tenantId: string) {
    reading.Malformed? || (reading.Restricted? && AsksForBoth(reading.condition, tenantId))
  }

  /** Exactly the tests of one alternative hold. */
  lemma OnlyTheTestsOf(condition: seq<Token>, d: seq<Token>, tenantId: string)
    requires d in Disjuncts(condition) && Scopes(Restricted(condition), Restricted(condition), tenantId)
    ensures TenantTest(tenantId) in Conjuncts(d) && LIVE_TEST in Conjuncts(d)
  {
    var holds := (t: seq<Token>) => t in Conjuncts(d);
    assert Conjunction(d, holds);
    assert Returns(Restricted(condition), holds);
  }

  lemma SelfScopesIff(reading: Reading, tenantId: string)
    ensures Scopes(reading, reading, tenantId) <==> ScopedAlready(reading, tenantId)
  {
    match reading
    case Unrestricted => UnfilteredLeaks(tenantId, reading, reading);
    case Malformed =>
    case Restricted(condition) =>
      if AsksForBoth(condition, tenantId) {
        forall holds: seq<Token> -> bool | Returns(reading, holds)
          ensures holds(TenantTest(tenantId)) && holds(LIVE_TEST)
        {
          var d :| d in Disjuncts(condition) && Conjunction(d, holds);
        }
      } else {
        var d :| d in Disjuncts(condition)
                 && !(TenantTest(tenantId) in Conjuncts(d) && LIVE_TEST in Conjuncts(d));
        if Scopes(reading, reading, tenantId) {
          OnlyTheTestsOf(condition, d, tenantId);
        }
      }
  }

  /**
   A statement that mentions org_id anywhere, or does not start with SELECT, is
   left as it is; so it is scoped exactly when every alternative of each of its
   conditions already asks for both tests.
   */
  lemma UnchangedScopesIff(sql: string, tenantId: string)
    requires Includes(sql, "org_id") || !StartsSelect(Trim(sql))
    ensures InjectFilters(sql, tenantId) == sql
    ensures AllScoped(Meaning(InjectFilters(sql, tenantId)), Meaning(sql), tenantId)
        <==> forall i :: 0 <= i < |Meaning(sql)| ==> ScopedAlready(Meaning(sql)[i], tenantId)
  {
    forall i | 0 <= i < |Meaning(sql)|
      ensures Scopes(Meaning(sql)[i], Meaning(sql)[i], tenantId) <==> ScopedAlready(Meaning(sql)[i], tenantId)
    {
      SelfScopesIff(Meaning(sql)[i], tenantId);
    }
  }
}
