/**
 Filters that land inside a literal: when the first WHERE or tail keyword of a
 text is in quotes, what is inserted is read as quoted text, and scopes nothing.
 */
module SqlOpenLiteral {
  import opened Wrappers
  import opened SqlText
  import opened SqlReader
  import opened SqlFilters
  import opened SqlFilterMeaning
  import opened SqlStatement
  import opened SqlLiteral

  // ---------- Reading on from inside a literal ----------

  lemma {:induction false} LexPlain(p: string, rest: string)
    requires '\'' !in p && rest != "" && rest[0] != '\''
    ensures Lex(p + ("'" + rest)) == Some(Lexed(p, rest))
  {
    var s := p + ("'" + rest);
    if p == "" {
      assert s[0] == '\'' && s[1] == rest[0] && s[1..] == rest;
    } else {
      assert s[1..] == p[1..] + ("'" + rest);
      LexPlain(p[1..], rest);
      assert [p[0]] + p[1..] == p;
    }
  }

  /** A literal left open ends at the first quote of what follows. */
  lemma {:induction false} LexOpen(u: string, p: string, rest: string)
    requires Lex(u).None? && '\'' !in p && rest != "" && rest[0] != '\''
    ensures Lex(u + (p + ("'" + rest))).Some? && Lex(u + (p + ("'" + rest))).value.rest == rest
    decreases |u|
  {
    var x := p + ("'" + rest);
    if u == "" {
      assert u + x == x;
      LexPlain(p, rest);
    } else if u[0] != '\'' {
      assert (u + x)[1..] == u[1..] + x;
      LexOpen(u[1..], p, rest);
    } else {
      assert u[1] == '\'';
      assert (u + x)[2..] == u[2..] + x;
      LexOpen(u[2..], p, rest);
    }
  }

  lemma ExcludesTail(s: string, word: string, n: nat)
    requires !Includes(s, word) && n <= |s|
    ensures !Includes(s[n..], word)
  {
    if i :| 0 <= i <= |s[n..]| && FoldedAt(s[n..], word, i) {
      assert s[n..][i..i + |word|] == s[n + i..n + i + |word|];
      assert FoldedAt(s, word, n + i);
    }
  }

  lemma ExcludesHead(s: string, word: string, n: nat)
    requires !Includes(s, word) && n <= |s|
    ensures !Includes(s[..n], word)
  {
    if i :| 0 <= i <= n && FoldedAt(s[..n], word, i) {
      assert s[..n][i..i + |word|] == s[i..i + |word|];
      assert FoldedAt(s, word, i);
    }
  }

  /** A word that is nowhere in the text is not read from it. */
  lemma ExcludedNotRead(s: string, word: string)
    requires !Includes(s, word) && word != ""
    ensures Word(Upper(word)) !in Tokens(s)
  {
    forall i | 0 <= i < |s| ensures !MatchAt(s, word, i) {
      assert !FoldedAt(s, word, i);
    }
    UnmatchedNotRead(s, word, 0);
    assert s[0..] == s;
  }

  /** The same for text that ends inside a literal, closed by the first quote of what follows. */
  lemma {:induction false} OpenNotRead(head: string, word: string, p: string, rest: string)
    requires !Closed(head) && !Includes(head, word) && word != ""
    requires p != "" && '\'' !in p && rest != "" && rest[0] != '\'' && Word(Upper(word)) !in Tokens(rest)
    ensures Word(Upper(word)) !in Tokens(head + (p + ("'" + rest)))
    decreases |head|
  {
    var x := p + ("'" + rest);
    assert (head + x)[1..] == head[1..] + x;
    if head[0] == '\'' {
      match Lex(head[1..])
      case Some(l) =>
        LexedRest(head[1..]);
        LexAppend(head[1..], x);
        ExcludesTail(head, word, |head| - |l.rest|);
        assert l.rest == head[|head| - |l.rest|..];
        OpenNotRead(l.rest, word, p, rest);
      case None =>
        LexOpen(head[1..], p, rest);
    } else if IsWord(head[0]) {
      OpenWord(head, word, x);
      var n := WordRun(head);
      ExcludesTail(head, word, n);
      OpenNotRead(head[n..], word, p, rest);
    } else {
      ExcludesTail(head, word, 1);
      OpenNotRead(head[1..], word, p, rest);
    }
  }

  lemma {:induction false} QuoteFree(s: string)
    requires '\'' !in s
    ensures Closed(s)
  {
    if s != "" {
      QuoteFree(s[1..]);
    }
  }

  lemma {:induction false} ClosedConcat(a: string, b: string)
    requires '\'' !in a && Closed(b)
    ensures Closed(a + b)
  {
    if a == "" {
      assert a + b == b;
    } else {
      assert (a + b)[1..] == a[1..] + b && (a + b)[0] == a[0];
      ClosedConcat(a[1..], b);
    }
  }

  lemma PrefixFolded(s: string, n: nat, word: string)
    requires n <= |s|
    ensures Upper(s[..n]) == Upper(word) ==> FoldedAt(s, word, 0)
  {
    assert |Upper(s[..n])| == n && |Upper(word)| == |word|;
  }

  /** A word before the open literal is read whole. */
  lemma OpenWord(head: string, word: string, x: string)
    requires !Closed(head) && head != "" && IsWord(head[0]) && !Includes(head, word)
    ensures var n := WordRun(head);
            && 0 < n < |head| && !Closed(head[n..])
            && Tokens(head + x) == [Word(Upper(head[..n]))] + Tokens(head[n..] + x)
            && Upper(head[..n]) != Upper(word)
  {
    var n := WordRun(head);
    if n == |head| {
      QuoteFree(head);
    }
    assert head[..n] + head[n..] == head;
    if Closed(head[n..]) {
      ClosedConcat(head[..n], head[n..]);
    }
    TokensWord(head[..n], head[n..] + x);
    Assoc(head[..n], head[n..], x);
    assert !FoldedAt(head, word, 0);
    PrefixFolded(head, n, word);
  }

  // ---------- The inserted text ----------

  lemma FoldedChar(s: string, word: string, i: nat, k: nat)
    requires FoldedAt(s, word, i) && k < |word|
    ensures i + k < |s| && Up(s[i + k]) == Up(word[k])
  {
    assert Upper(s[i..i + |word|])[k] == Upper(word)[k];
  }

  lemma Straddles(a: string, b: string, word: string, i: nat)
    requires FoldedAt(a + b, word, i) && i < |a| < i + |word|
    requires forall k :: 0 <= k < |word| ==> IsWord(Up(word[k]))
    ensures b != "" && IsWord(a[|a| - 1]) && IsWord(b[0])
  {
    FoldedChar(a + b, word, i, |a| - 1 - i);
    FoldedChar(a + b, word, i, |a| - i);
  }

  lemma FoundInPart(a: string, b: string, word: string, i: nat)
    requires FoldedAt(a + b, word, i)
    ensures i + |word| <= |a| ==> FoldedAt(a, word, i)
    ensures i >= |a| ==> FoldedAt(b, word, i - |a|)
  {
    var found := (a + b)[i..i + |word|];
    assert i + |word| <= |a| ==> a[i..i + |word|] == found;
    assert i >= |a| ==> b[i - |a|..i - |a| + |word|] == found;
  }

  /** A word of word characters is not made by putting texts together at the end of a word. */
  lemma ExcludesConcat(a: string, b: string, word: string)
    requires !Includes(a, word) && !Includes(b, word) && forall i :: 0 <= i < |word| ==> IsWord(Up(word[i]))
    requires a == "" || b == "" || !IsWord(a[|a| - 1]) || !IsWord(b[0])
    ensures !Includes(a + b, word)
  {
    if i :| 0 <= i <= |a + b| && FoldedAt(a + b, word, i) {
      FoundInPart(a, b, word, i);
      if i < |a| < i + |word| {
        Straddles(a, b, word, i);
      }
    }
  }

  lemma HasG(s: string)
    requires Includes(s, "org_id")
    ensures exists i :: 0 <= i < |s| && Up(s[i]) == 'G'
  {
    var i :| 0 <= i <= |s| && FoldedAt(s, "org_id", i);
    FoldedChar(s, "org_id", i, 2);
  }

  lemma {:induction false} EscapePlain(s: string)
    requires '\'' !in s
    ensures Escape(s) == s
  {
    if s != "" {
      EscapePlain(s[1..]);
      assert [s[0]] + s[1..] == s;
    }
  }

  /** A tenant id without quotes that does not itself mention org_id. */
  predicate Innocent(tenantId: string) {
    tenantId != "" && '\'' !in tenantId && !Includes(tenantId, "org_id")
  }

  lemma AfterTenant(tenantId: string, after: string)
    requires Innocent(tenantId) && !Includes(after, "org_id") && (after == "" || !IsWord(after[0]))
    ensures Word("ORG_ID") !in Tokens(tenantId + (SOFT_DELETE_TEST + after))
  {
    if Includes(SOFT_DELETE_TEST, "org_id") {
      HasG(SOFT_DELETE_TEST);
    }
    UpperWords();
    ExcludesConcat(SOFT_DELETE_TEST, after, "org_id");
    ExcludesConcat(tenantId, SOFT_DELETE_TEST + after, "org_id");
    ExcludedNotRead(tenantId + (SOFT_DELETE_TEST + after), "org_id");
  }

  const CLAUSE_WORDS := "WHERE org_id = "

  lemma OpenedBefore(head: string, p: string, tenantId: string, after: string)
    requires !Closed(head) && !Includes(head, "org_id") && Innocent(tenantId) && p != "" && '\'' !in p
    requires !Includes(after, "org_id") && (after == "" || !IsWord(after[0]))
    ensures Word("ORG_ID") !in Tokens(head + (p + ("'" + (Escape(tenantId) + (SOFT_DELETE_TEST + after)))))
  {
    EscapePlain(tenantId);
    AfterTenant(tenantId, after);
    UpperWords();
    OpenNotRead(head, "org_id", p, tenantId + (SOFT_DELETE_TEST + after));
  }

  lemma ClauseWords(space: string, rest: string)
    requires space == "" || space == " "
    ensures space + (CLAUSE_START + rest) == space + CLAUSE_WORDS + ("'" + rest)
    ensures space + CLAUSE_WORDS != "" && '\'' !in space + CLAUSE_WORDS
  {
    assert CLAUSE_START == CLAUSE_WORDS + "'";
    Assoc(CLAUSE_WORDS, "'", rest);
    Assoc(space, CLAUSE_WORDS, "'" + rest);
  }

  lemma InsertedInLiteral(head: string, space: string, tenantId: string, after: string)
    requires !Closed(head) && !Includes(head, "org_id") && Innocent(tenantId) && (space == "" || space == " ")
    requires !Includes(after, "org_id") && (after == "" || !IsWord(after[0]))
    ensures Word("ORG_ID") !in Tokens(head + (space + (CLAUSE_START + (Escape(tenantId) + (SOFT_DELETE_TEST + after)))))
  {
    ClauseWords(space, Escape(tenantId) + (SOFT_DELETE_TEST + after));
    OpenedBefore(head, space + CLAUSE_WORDS, tenantId, after);
  }

  // ---------- Nothing is scoped ----------

  lemma EveryReadingReturns(reading: Reading, tenantId: string)
    requires reading != Malformed
    ensures Returns(reading, (t: seq<Token>) => true)
  {
    if reading.Restricted? {
      var d := Disjuncts(reading.condition);
      assert d[0] in d && Conjunction(d[0], (t: seq<Token>) => true);
    }
  }

  /** A statement that is read without org_id does not scope any well-formed one. */
  lemma UnreadLeaks(filtered: seq<Token>, original: seq<Token>, tenantId: string)
    requires Word("ORG_ID") !in filtered && WellFormed(Statement(original))
    ensures !AllScoped(Statement(filtered), Statement(original), tenantId)
  {
    var arm := Arms(filtered, 0)[0];
    var reading := Read(arm, 0);
    assert Statement(filtered)[0] == reading && Statement(original)[0] != Malformed;
    if reading == Malformed {
      EveryReadingReturns(Statement(original)[0], tenantId);
      var everything := (t: seq<Token>) => true;
      assert everything(TenantTest(tenantId)) && everything(LIVE_TEST) && !Returns(Malformed, everything);
      assert !Scopes(reading, Statement(original)[0], tenantId);
    } else {
      if reading.Restricted? && Word("ORG_ID") in reading.condition {
        ReadTokens(arm, 0, Word("ORG_ID"));
        ArmTokens(filtered, 0, arm, Word("ORG_ID"));
      }
      UnfilteredLeaks(tenantId, reading, Statement(original)[0]);
    }
  }
}
