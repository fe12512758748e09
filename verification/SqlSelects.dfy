/**
 What `injectFilters` does to texts as they are written: which ones it changes,
 what it puts where, and that the result is scoped. Stated on the characters of
 the text, not through the rewrite's own search for them.
 */
module SqlSelects {
  import opened Wrappers
  import opened SqlText
  import opened SqlReader
  import opened SqlFilters
  import opened SqlFilterMeaning
  import opened SqlStatement
  import opened SqlOpenLiteral
  import opened SqlScoping
  import opened SqlLiteral

  // ---------- White space ----------

  predicate Spaces(s: string) {
    forall i :: 0 <= i < |s| ==> IsSpace(s[i])
  }

  lemma {:induction false} TrimStartSkips(a: string, x: string)
    requires Spaces(a) && (x == "" || !IsSpace(x[0]))
    ensures TrimStart(a + x) == x
  {
    if a == "" {
      assert a + x == x;
    } else {
      assert (a + x)[1..] == a[1..] + x;
      TrimStartSkips(a[1..], x);
    }
  }

  lemma {:induction false} TrimEndStops(x: string, b: string)
    requires Spaces(b) && (x == "" || !IsSpace(x[|x| - 1]))
    ensures TrimEnd(x + b) == x
  {
    if b == "" {
      assert x + b == x;
    } else {
      assert (x + b)[..|x + b| - 1] == x + b[..|b| - 1];
      TrimEndStops(x, b[..|b| - 1]);
    }
  }

  /** Trimming takes off exactly the white space at both ends. */
  lemma TrimExact(a: string, x: string, b: string)
    requires Spaces(a) && Spaces(b) && x != "" && !IsSpace(x[0]) && !IsSpace(x[|x| - 1])
    ensures Trim(a + x + b) == x
  {
    Assoc(a, x, b);
    assert (x + b)[0] == x[0];
    TrimStartSkips(a, x + b);
    TrimEndStops(x, b);
  }

  lemma {:induction false} TrimEndPrefix(s: string)
    ensures TrimEnd(s) <= s
  {
    if s != "" && IsSpace(s[|s| - 1]) {
      TrimEndPrefix(s[..|s| - 1]);
    }
  }

  lemma {:induction false} TrimEndKeeps(x: string, y: string)
    requires x != "" && !IsSpace(x[|x| - 1])
    ensures x <= TrimEnd(x + y)
  {
    if y == "" {
      assert x + y == x;
    } else if IsSpace(y[|y| - 1]) {
      assert (x + y)[..|x + y| - 1] == x + y[..|y| - 1];
      TrimEndKeeps(x, y[..|y| - 1]);
    }
  }

  // ---------- Which texts are rewritten ----------

  /** SELECT in upper and lower case. */
  predicate SelectWord(w: string) {
    |w| == 6 && Upper(w) == "SELECT"
  }

  lemma SelectLetters(w: string)
    requires SelectWord(w)
    ensures forall k :: 0 <= k < 6 ==> Up(w[k]) == "SELECT"[k] && IsWord(w[k]) && !IsSpace(w[k])
  {
    forall k | 0 <= k < 6 ensures Up(w[k]) == "SELECT"[k] && IsWord(w[k]) && !IsSpace(w[k]) {
      assert Upper(w)[k] == "SELECT"[k];
    }
  }

  lemma SelectTrimmed(space: string, w: string, rest: string)
    requires Spaces(space) && SelectWord(w)
    ensures w <= Trim(space + w + rest) && StartsSelect(Trim(space + w + rest))
  {
    SelectLetters(w);
    Assoc(space, w, rest);
    assert (w + rest)[0] == w[0];
    TrimStartSkips(space, w + rest);
    TrimEndKeeps(w, rest);
    var s := Trim(space + w + rest);
    assert forall k :: 0 <= k < 6 ==> s[k] == w[k];
    assert seq(6, i requires 0 <= i < 6 => UpperForSelect(s[i])) == "SELECT";
  }

  /** SELECT and what is in front of it do not complete the word org_id. */
  lemma SelectExcludes(space: string, w: string, rest: string)
    requires Spaces(space) && SelectWord(w) && !Includes(rest, "org_id")
    ensures !Includes(space + w + rest, "org_id")
  {
    var front := space + w;
    if i :| 0 <= i <= |front + rest| && FoldedAt(front + rest, "org_id", i) {
      FoundInPart(front, rest, "org_id", i);
      FrontExcludes(space, w, rest, i);
    }
  }

  lemma FrontExcludes(space: string, w: string, rest: string, i: nat)
    requires Spaces(space) && SelectWord(w) && FoldedAt(space + w + rest, "org_id", i)
    ensures i >= |space + w|
  {
    var s := space + w + rest;
    SelectLetters(w);
    FoldedChar(s, "org_id", i, 0);
    assert forall j :: 0 <= j < |space| ==> s[j] == space[j];
    assert forall k :: 0 <= k < 6 ==> s[|space| + k] == w[k];
  }

  /**
   Whatever white space is in front, a text that starts with the word SELECT
   and does not mention org_id is changed, and then mentions it.
   */
  lemma SelectIsFiltered(space: string, w: string, rest: string, tenantId: string)
    requires Spaces(space) && SelectWord(w) && !Includes(rest, "org_id")
    ensures Spaces(" \t\r\n")
    ensures var text := space + w + rest;
            InjectFilters(text, tenantId) != text && Includes(InjectFilters(text, tenantId), "org_id")
  {
    SelectTrimmed(space, w, rest);
    SelectExcludes(space, w, rest);
    InjectedIncludes(space + w + rest, tenantId);
  }

  /** A text that starts with anything else is left alone; the long s is SELECT's only other letter. */
  lemma OtherTextIsKept(space: string, rest: string, tenantId: string)
    requires Spaces(space) && (rest == "" || !IsSpace(rest[0]))
    requires |rest| < 6 || (!SelectWord(rest[..6]) && '\U{017F}' !in rest[..6])
    ensures InjectFilters(space + rest, tenantId) == space + rest
  {
    TrimStartSkips(space, rest);
    TrimEndPrefix(rest);
    var s := Trim(space + rest);
    if |s| >= 6 {
      OtherStart(s[..6]);
      assert s[..6] == rest[..6];
      assert seq(6, i requires 0 <= i < 6 => UpperForSelect(s[i]))
          == seq(6, i requires 0 <= i < 6 => UpperForSelect(s[..6][i]));
    }
  }

  lemma OtherStart(w: string)
    requires |w| == 6 && '\U{017F}' !in w
    ensures seq(6, i requires 0 <= i < 6 => UpperForSelect(w[i])) == Upper(w)
  {
  }

  // ---------- Nothing is put in front of SELECT ----------

  lemma NoKeywordInSelect(sql: string, word: string, i: nat)
    requires |sql| >= 6 && SelectWord(sql[..6]) && MatchAt(sql, word, i) && word != "" && Up(word[0]) != 'S'
    ensures i >= 6
  {
    SelectLetters(sql[..6]);
    FoldedChar(sql, word, i, 0);
    assert forall k :: 0 <= k < 6 ==> sql[..6][k] == sql[k];
  }

  lemma InjectKeepsStart(sql: string, tenantId: string)
    requires |sql| >= 6 && SelectWord(sql[..6])
    ensures sql[..6] <= InjectFilters(sql, tenantId)
  {
    match FindWhere(sql)
    case Some(i) => NoKeywordInSelect(sql, "WHERE", i);
    case None =>
      match FindTail(sql)
      case Some(i) =>
        TailStartIs(sql, i);
        TailAfterSelect(sql, i);
      case None =>
  }

  lemma TailAfterSelect(sql: string, i: nat)
    requires |sql| >= 6 && SelectWord(sql[..6]) && TailStart(sql, i)
    ensures i >= 6
  {
    if MatchAt(sql, "ORDER BY", i) {
      NoKeywordInSelect(sql, "ORDER BY", i);
    } else if MatchAt(sql, "LIMIT", i) {
      NoKeywordInSelect(sql, "LIMIT", i);
    } else if MatchAt(sql, "GROUP BY", i) {
      NoKeywordInSelect(sql, "GROUP BY", i);
    } else {
      NoKeywordInSelect(sql, "HAVING", i);
    }
  }

  /** After the white space in front, the text goes on with SELECT. */
  predicate SelectAt(text: string, n: nat) {
    n + 6 <= |text| && Spaces(text[..n]) && SelectWord(text[n..n + 6])
  }

  /** The query of a template that starts with SELECT starts with that word and asks for the tenant. */
  lemma QueryIsFiltered(text: string, n: nat, tenantId: string)
    requires SelectAt(text, n)
    ensures text[n..n + 6] <= InjectFilters(Trim(text), tenantId)
    ensures Includes(InjectFilters(Trim(text), tenantId), "org_id")
  {
    var w := text[n..n + 6];
    assert text == text[..n] + w + text[n + 6..];
    SelectTrimmed(text[..n], w, text[n + 6..]);
    var s := Trim(text);
    assert s[..6] == w;
    InjectKeepsStart(s, tenantId);
    TrimTwice(s, w);
    InjectedIncludes(s, tenantId);
  }

  lemma TrimTwice(s: string, w: string)
    requires SelectWord(w) && w <= s
    ensures StartsSelect(Trim(s))
  {
    assert s == "" + w + s[6..];
    SelectTrimmed("", w, s[6..]);
  }

  // ---------- What is put where ----------

  /** One of the keywords a new clause goes in front of. */
  predicate TailStart(sql: string, i: nat) {
    MatchAt(sql, "ORDER BY", i) || MatchAt(sql, "LIMIT", i) || MatchAt(sql, "GROUP BY", i) || MatchAt(sql, "HAVING", i)
  }

  lemma TailStartIs(sql: string, i: nat)
    ensures MatchAnyAt(sql, TAIL_WORDS, i) <==> TailStart(sql, i)
  {
    assert forall w :: w in TAIL_WORDS ==> w == "ORDER BY" || w == "LIMIT" || w == "GROUP BY" || w == "HAVING";
    assert TAIL_WORDS[0] == "ORDER BY" && TAIL_WORDS[1] == "LIMIT";
    assert TAIL_WORDS[2] == "GROUP BY" && TAIL_WORDS[3] == "HAVING";
  }

  /** The filters, spelled out. */
  function FilterText(tenantId: string): string {
    "org_id = '" + (Escape(tenantId) + "' AND deleted_at IS NULL")
  }

  /** A SELECT that does not mention org_id. */
  ghost predicate PlainSelect(sql: string) {
    !Includes(sql, "org_id") && exists n: nat :: SelectAt(sql, n)
  }

  lemma PlainStarts(sql: string)
    requires PlainSelect(sql)
    ensures StartsSelect(Trim(sql))
  {
    var n: nat :| SelectAt(sql, n);
    assert sql == sql[..n] + sql[n..n + 6] + sql[n + 6..];
    SelectTrimmed(sql[..n], sql[n..n + 6], sql[n + 6..]);
  }

  /** `i` is the first place with one of the tail keywords, or the end. */
  ghost predicate TailFrom(sql: string, i: nat) {
    && i <= |sql| && (i == |sql| || TailStart(sql, i))
    && forall k :: 0 <= k < i ==> !TailStart(sql, k)
  }

  lemma FirstTail(sql: string, i: nat)
    requires TailFrom(sql, i)
    ensures FindTail(sql) == if i < |sql| then Some(i) else None
  {
    forall k: nat ensures MatchAnyAt(sql, TAIL_WORDS, k) <==> TailStart(sql, k) {
      TailStartIs(sql, k);
    }
  }

  /** Without WHERE, a clause goes in front of the first tail keyword, or at the end. */
  lemma ClauseIsInserted(sql: string, i: nat, tenantId: string)
    requires PlainSelect(sql) && TailFrom(sql, i) && forall k :: 0 <= k < |sql| ==> !MatchAt(sql, "WHERE", k)
    ensures FindWhere(sql).None?
    ensures InjectFilters(sql, tenantId)
         == if i < |sql| then sql[..i] + ("WHERE " + FilterText(tenantId) + " ") + sql[i..]
            else sql + (" WHERE " + FilterText(tenantId))
  {
    PlainStarts(sql);
    FirstTail(sql, i);
  }

  /** With a WHERE, the filters go right after the first. */
  lemma FiltersAreInserted(sql: string, i: nat, tenantId: string)
    requires PlainSelect(sql) && MatchAt(sql, "WHERE", i) && Inert(tenantId + "'")
    requires forall k :: 0 <= k < i ==> !MatchAt(sql, "WHERE", k)
    ensures FindWhere(sql) == Some(i) && i + 5 <= |sql|
    ensures InjectFilters(sql, tenantId)
         == sql[..i] + ("WHERE " + FilterText(tenantId) + " AND") + sql[i + 5..]
  {
    PlainStarts(sql);
    WhereKeyword(sql, i);
    FirstWhere(sql, i);
    ReplaceIsPlain(sql, i, tenantId);
  }

  lemma FirstWhere(sql: string, i: nat)
    requires MatchAt(sql, "WHERE", i) && i < |sql| && forall k :: 0 <= k < i ==> !MatchAt(sql, "WHERE", k)
    ensures FindWhere(sql) == Some(i)
  {
  }

  // ---------- And is scoped ----------

  /** A well-formed statement of one SELECT. */
  ghost predicate WellFormedSelect(sql: string) {
    PlainSelect(sql) && WellFormed(Meaning(sql)) && Single(sql)
  }

  /** The text up to `i` ends outside literals and parentheses. */
  predicate Outside(sql: string, i: nat)
    requires i <= |sql|
  {
    Closed(sql[..i]) && DepthAfter(Tokens(sql[..i]), 0) == 0
  }

  /** Without WHERE, with any ORDER BY, LIMIT, GROUP BY or HAVING tail: the tenant's undeleted rows, and no others. */
  lemma SelectWithoutWhere(sql: string, i: nat, tenantId: string)
    requires WellFormedSelect(sql) && TailFrom(sql, i) && Outside(sql, i) && TailFree(Tokens(sql[..i]), 0)
    requires forall k :: 0 <= k < |sql| ==> !MatchAt(sql, "WHERE", k)
    ensures AllScoped(Meaning(InjectFilters(sql, tenantId)), Meaning(sql), tenantId)
  {
    ClauseIsInserted(sql, i, tenantId);
    FirstTail(sql, i);
    InjectScopes(sql, tenantId);
  }

  /** With a WHERE: the same, exactly when what follows it has no outer OR. */
  lemma SelectWithWhere(sql: string, i: nat, tenantId: string)
    requires WellFormedSelect(sql) && MatchAt(sql, "WHERE", i) && i + 5 <= |sql| && Outside(sql, i)
    requires Inert(tenantId + "'") && forall k :: 0 <= k < i ==> !MatchAt(sql, "WHERE", k)
    ensures AllScoped(Meaning(InjectFilters(sql, tenantId)), Meaning(sql), tenantId)
        <==> |Disjuncts(Condition(Tokens(sql[i + 5..]), 0))| == 1
  {
    FiltersAreInserted(sql, i, tenantId);
    InjectScopes(sql, tenantId);
  }
}
