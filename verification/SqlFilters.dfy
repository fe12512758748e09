/**
 Tenant and soft-delete filter injection into SQL text (`injectFilters` of
 packages/db), what it does to the statement's meaning, and exactly when that
 is what it is for.
 */
module SqlFilters {
  import opened Wrappers
  import opened SqlText
  import opened SqlLiteral
  import opened Digits
  import SqlTemplate

  // ---------- The rewrite ----------

  /** `toUpperCase` as far as it can produce the letters of SELECT: the long s also becomes S. */
  function UpperForSelect(c: char): char {
    if c == '\U{017F}' then 'S' else Up(c)
  }

  predicate StartsSelect(s: string) {
    |s| >= 6 && seq(6, i requires 0 <= i < 6 => UpperForSelect(s[i])) == "SELECT"
  }

  const TAIL_WORDS := ["ORDER BY", "LIMIT", "GROUP BY", "HAVING"]

  const TENANT_TEST := "org_id = '"
  const SOFT_DELETE_TEST := "' AND deleted_at IS NULL"

  function Combined(tenantId: string): string {
    TENANT_TEST + (Escape(tenantId) + SOFT_DELETE_TEST)
  }

  /** What may follow a `$` in a pattern of `String.replace`, for a match without groups. */
  predicate IsPattern(c: char) {
    c == '$' || c == '&' || c == '`' || c == '\''
  }

  function Replacement(c: char, matched: string, before: string, after: string): string {
    match c
    case '$' => "$"
    case '&' => matched
    case '`' => before
    case _ => after
  }

  function Expand(template: string, matched: string, before: string, after: string): string {
    if template == "" then ""
    else if template[0] == '$' && |template| > 1 && IsPattern(template[1]) then
      Replacement(template[1], matched, before, after) + Expand(template[2..], matched, before, after)
    else [template[0]] + Expand(template[1..], matched, before, after)
  }

  function FindWhere(sql: string): (r: Option<nat>)
    ensures r.Some? ==> r.value + 5 <= |sql| && MatchAt(sql, "WHERE", r.value)
    ensures forall k :: 0 <= k < (if r.Some? then r.value else |sql|) ==> !MatchAt(sql, "WHERE", k)
  {
    OneWord(sql, "WHERE");
    FirstMatch(sql, ["WHERE"], 0)
  }

  /** Where the first tail keyword starts. */
  function FindTail(sql: string): (r: Option<nat>)
    ensures r.Some? ==> r.value < |sql| && MatchAnyAt(sql, TAIL_WORDS, r.value)
    ensures forall k :: 0 <= k < (if r.Some? then r.value else |sql|) ==> !MatchAnyAt(sql, TAIL_WORDS, k)
  {
    FirstMatch(sql, TAIL_WORDS, 0)
  }

  /** The filters in front of the condition of the `WHERE` at `i`. */
  function AtWhere(sql: string, i: nat, tenantId: string): string
    requires i + 5 <= |sql|
  {
    sql[..i] + Expand("WHERE " + Combined(tenantId) + " AND", sql[i..i + 5], sql[..i], sql[i + 5..]) + sql[i + 5..]
  }

  /** A new clause in front of the tail that starts at `i`. */
  function BeforeTail(sql: string, i: nat, tenantId: string): string
    requires i <= |sql|
  {
    sql[..i] + ("WHERE " + Combined(tenantId) + " ") + sql[i..]
  }

  function AtEnd(sql: string, tenantId: string): string {
    sql + (" WHERE " + Combined(tenantId))
  }

  function InjectFilters(sql: string, tenantId: string): string {
    if !StartsSelect(Trim(sql)) then sql
    else if Includes(sql, "org_id") then sql
    else
      match FindWhere(sql)
      case Some(i) => AtWhere(sql, i, tenantId)
      case None =>
        match FindTail(sql)
        case Some(i) => BeforeTail(sql, i, tenantId)
        case None => AtEnd(sql, tenantId)
  }

  // ---------- Idempotence ----------

  lemma IncludesMiddle(a: string, b: string, c: string, word: string)
    requires Includes(b, word)
    ensures Includes(a + b + c, word)
  {
    var i :| 0 <= i <= |b| && FoldedAt(b, word, i);
    assert (a + b + c)[|a| + i..|a| + i + |word|] == b[i..i + |word|];
    assert FoldedAt(a + b + c, word, |a| + i);
  }

  /** Literal text without `$` is copied by `replace`. */
  lemma {:induction false} ExpandLiteral(t: string, rest: string, matched: string, before: string, after: string)
    requires '$' !in t
    ensures Expand(t + rest, matched, before, after) == t + Expand(rest, matched, before, after)
  {
    if t == "" {
      assert t + rest == rest;
    } else {
      assert (t + rest)[1..] == t[1..] + rest;
      ExpandLiteral(t[1..], rest, matched, before, after);
      assert t == [t[0]] + t[1..];
    }
  }

  lemma CombinedIncludes(tenantId: string)
    ensures Includes("WHERE " + Combined(tenantId), "org_id")
  {
    assert TENANT_TEST[..6] == "org_id";
    assert FoldedAt(TENANT_TEST, "org_id", 0);
    IncludesMiddle("WHERE ", TENANT_TEST, Escape(tenantId) + SOFT_DELETE_TEST, "org_id");
    Assoc("WHERE ", TENANT_TEST, Escape(tenantId) + SOFT_DELETE_TEST);
  }

  lemma IncludesPrefix(a: string, b: string, x: string, c: string, word: string)
    requires Includes(b, word)
    ensures Includes(a + (b + x) + c, word)
  {
    IncludesMiddle("", b, x, word);
    assert "" + b + x == b + x;
    IncludesMiddle(a, b + x, c, word);
  }

  const CLAUSE_START := "WHERE " + TENANT_TEST

  lemma StartIncludes()
    ensures Includes(CLAUSE_START, "org_id") && '$' !in CLAUSE_START
  {
    assert CLAUSE_START[6..12] == "org_id";
    assert FoldedAt(CLAUSE_START, "org_id", 6);
  }

  lemma Regroup(a: string, b: string, c: string, d: string, e: string)
    ensures a + (b + (c + d)) + e == (a + b) + (c + (d + e))
  {
  }

  lemma AtWhereIncludes(sql: string, i: nat, tenantId: string)
    requires i + 5 <= |sql|
    ensures Includes(AtWhere(sql, i, tenantId), "org_id")
  {
    Regroup("WHERE ", TENANT_TEST, Escape(tenantId), SOFT_DELETE_TEST, " AND");
    StartIncludes();
    ExpandedIncludes(sql[..i], CLAUSE_START, Escape(tenantId) + (SOFT_DELETE_TEST + " AND"),
                     sql[i..i + 5], sql[i + 5..]);
  }

  lemma ExpandedIncludes(before: string, start: string, rest: string, matched: string, after: string)
    requires Includes(start, "org_id") && '$' !in start
    ensures Includes(before + Expand(start + rest, matched, before, after) + after, "org_id")
  {
    ExpandLiteral(start, rest, matched, before, after);
    IncludesPrefix(before, start, Expand(rest, matched, before, after), after, "org_id");
  }

  lemma RegroupClauses(a: string, b: string, c: string, d: string)
    ensures a + (b + c) + d == a + b + (c + d)
  {
  }

  lemma BeforeTailIncludes(sql: string, i: nat, tenantId: string)
    requires i <= |sql|
    ensures Includes(BeforeTail(sql, i, tenantId), "org_id")
  {
    var clause := "WHERE " + Combined(tenantId);
    CombinedIncludes(tenantId);
    IncludesMiddle(sql[..i], clause, " " + sql[i..], "org_id");
    RegroupClauses(sql[..i], clause, " ", sql[i..]);
  }

  lemma AtEndIncludes(sql: string, tenantId: string)
    ensures Includes(AtEnd(sql, tenantId), "org_id")
  {
    CombinedIncludes(tenantId);
    IncludesMiddle(sql + " ", "WHERE " + Combined(tenantId), "", "org_id");
    assert " WHERE " == " " + "WHERE ";
    RegroupEnd(sql, " ", "WHERE ", Combined(tenantId));
  }

  lemma RegroupEnd(a: string, b: string, c: string, d: string)
    ensures a + (b + c + d) == a + b + (c + d) + ""
  {
  }

  /** Whatever the text and the tenant id, a rewritten SELECT mentions org_id. */
  lemma InjectedIncludes(sql: string, tenantId: string)
    requires StartsSelect(Trim(sql))
    ensures Includes(InjectFilters(sql, tenantId), "org_id")
  {
    var where, tail := FindWhere(sql), FindTail(sql);
    if where.Some? {
      AtWhereIncludes(sql, where.value, tenantId);
    }
    BeforeTailIncludes(sql, if tail.Some? then tail.value else 0, tenantId);
    AtEndIncludes(sql, tenantId);
  }

  /** Injecting again, for any tenant, changes nothing. */
  lemma InjectIdempotent(sql: string, tenantId: string, other: string)
    ensures InjectFilters(InjectFilters(sql, tenantId), other) == InjectFilters(sql, tenantId)
  {
    if StartsSelect(Trim(sql)) {
      InjectedIncludes(sql, tenantId);
    }
  }

  // ---------- Placeholders ----------

  /** Text that does not start with a digit cannot change the placeholders before it. */
  lemma {:induction false} PlaceholdersSplit(a: string, b: string)
    requires DigitRun(b) == 0
    ensures SqlTemplate.Placeholders(a + b) == SqlTemplate.Placeholders(a) + SqlTemplate.Placeholders(b)
    decreases |a|
  {
    if a == "" {
      assert a + b == b;
    } else if SqlTemplate.AtPlaceholder(a + b) {
      var n := SqlTemplate.PlaceholderLength(a + b);
      if n < |a| {
        SqlTemplate.PlaceholderWithin(a, b);
        assert a[1..n] == (a + b)[1..n];
        PlaceholdersSplit(a[n..], b);
      } else {
        LastPlaceholder(a, b);
      }
    } else {
      assert (a + b)[1..] == a[1..] + b;
      PlaceholdersSplit(a[1..], b);
    }
  }

  /** A text that is one placeholder. */
  lemma WholePlaceholder(a: string)
    requires |a| > 1 && a[0] == '$' && AllDigits(a[1..])
    ensures SqlTemplate.AtPlaceholder(a) && SqlTemplate.PlaceholderLength(a) == |a|
    ensures SqlTemplate.Placeholders(a) == [Parse(a[1..])]
  {
    DigitRunAppend(a[1..], "");
    assert a[1..] + "" == a[1..];
    assert a[1..][0] == a[1];
    assert a[1..|a|] == a[1..] && a[|a|..] == "";
  }

  /** A placeholder that reaches the end of `a` stops there. */
  lemma PlaceholderStops(a: string, b: string)
    requires DigitRun(b) == 0 && a != ""
    requires SqlTemplate.AtPlaceholder(a + b) && SqlTemplate.PlaceholderLength(a + b) >= |a|
    ensures SqlTemplate.PlaceholderLength(a + b) == |a| && |a| > 1 && a[0] == '$' && AllDigits(a[1..])
  {
    var n := SqlTemplate.PlaceholderLength(a + b);
    var digits := a[1..];
    assert digits == (a + b)[1..n][..|digits|];
    assert (a + b)[1..] == digits + b;
    DigitRunAppend(digits, b);
  }

  lemma LastPlaceholder(a: string, b: string)
    requires DigitRun(b) == 0 && a != ""
    requires SqlTemplate.AtPlaceholder(a + b) && SqlTemplate.PlaceholderLength(a + b) >= |a|
    ensures SqlTemplate.Placeholders(a + b) == SqlTemplate.Placeholders(a) + SqlTemplate.Placeholders(b)
  {
    PlaceholderStops(a, b);
    WholePlaceholder(a);
    assert (a + b)[1..|a|] == a[1..] && (a + b)[|a|..] == b;
  }

  // ---------- What follows a dollar sign ----------

  predicate DollarBefore(s: string, i: nat, bad: char -> bool) {
    i + 1 < |s| && s[i] == '$' && bad(s[i + 1])
  }

  /** No `$` is directly followed by such a character. */
  ghost predicate Without(s: string, bad: char -> bool) {
    forall i :: 0 <= i < |s| ==> !DollarBefore(s, i, bad)
  }

  /** `replace` inserts the text as it is. */
  ghost predicate Inert(s: string) {
    Without(s, IsPattern)
  }

  lemma WithoutTail(s: string, bad: char -> bool)
    requires Without(s, bad) && s != ""
    ensures Without(s[1..], bad)
  {
    forall i | 0 <= i < |s| - 1 ensures !DollarBefore(s[1..], i, bad) {
      assert !DollarBefore(s, i + 1, bad);
    }
  }

  lemma WithoutConcat(a: string, b: string, bad: char -> bool)
    requires Without(a, bad) && Without(b, bad)
    requires a == "" || b == "" || a[|a| - 1] != '$' || !bad(b[0])
    ensures Without(a + b, bad)
  {
    forall i | 0 <= i < |a + b| ensures !DollarBefore(a + b, i, bad) {
      if i < |a| {
        assert !DollarBefore(a, i, bad);
      } else {
        assert !DollarBefore(b, i - |a|, bad);
      }
    }
  }

  lemma DollarFree(a: string, bad: char -> bool)
    requires '$' !in a
    ensures Without(a, bad)
  {
  }

  /** Escaping only puts quotes in. */
  lemma {:induction false} EscapeWithout(s: string, rest: string, bad: char -> bool)
    requires Without(s + rest, bad) && rest != "" && rest[0] == '\''
    ensures Without(Escape(s) + rest, bad)
  {
    if s == "" {
      assert s + rest == rest && Escape(s) + rest == rest;
    } else {
      assert (s + rest)[1..] == s[1..] + rest;
      WithoutTail(s + rest, bad);
      EscapeWithout(s[1..], rest, bad);
      assert !DollarBefore(s + rest, 0, bad);
      var tail := Escape(s[1..]) + rest;
      assert tail[0] == (s + rest)[1] by { EscapeFirst(s[1..], rest); }
      Assoc(Quoted(s[0]), Escape(s[1..]), rest);
      DollarFree("''", bad);
      WithoutConcat(Quoted(s[0]), tail, bad);
    }
  }

  lemma EscapeFirst(s: string, rest: string)
    requires rest != "" && rest[0] == '\''
    ensures (Escape(s) + rest)[0] == (s + rest)[0]
  {
  }

  /** The inserted text around the escaped tenant id. */
  lemma InsertedText(tenantId: string, ending: string)
    ensures "WHERE " + Combined(tenantId) + ending
         == CLAUSE_START + (Escape(tenantId) + (SOFT_DELETE_TEST + ending))
  {
    Regroup("WHERE ", TENANT_TEST, Escape(tenantId), SOFT_DELETE_TEST, ending);
  }

  lemma InsertedWithout(tenantId: string, ending: string, bad: char -> bool)
    requires Without(tenantId + "'", bad) && '$' !in ending
    ensures Without("WHERE " + Combined(tenantId) + ending, bad)
  {
    InsertedText(tenantId, ending);
    StartIncludes();
    var after := SOFT_DELETE_TEST + ending;
    assert after[0] == '\'' && after == "'" + after[1..] && '$' !in after;
    DollarFree(after[1..], bad);
    WithoutConcat(tenantId + "'", after[1..], bad);
    Assoc(tenantId, "'", after[1..]);
    EscapeWithout(tenantId, after, bad);
    DollarFree(CLAUSE_START, bad);
    WithoutConcat(CLAUSE_START, Escape(tenantId) + after, bad);
  }

  lemma {:induction false} ExpandInert(t: string, matched: string, before: string, after: string)
    requires Inert(t)
    ensures Expand(t, matched, before, after) == t
  {
    if t != "" {
      assert !DollarBefore(t, 0, IsPattern);
      WithoutTail(t, IsPattern);
      ExpandInert(t[1..], matched, before, after);
    }
  }

  /** The first pattern is replaced, and expansion goes on after it. */
  lemma {:induction false} ExpandFirst(p: string, c: char, q: string, matched: string, before: string, after: string)
    requires Inert(p + "$") && IsPattern(c)
    ensures Expand(p + ("$" + ([c] + q)), matched, before, after)
         == p + (Replacement(c, matched, before, after) + Expand(q, matched, before, after))
  {
    var t := p + ("$" + ([c] + q));
    var put := Replacement(c, matched, before, after) + Expand(q, matched, before, after);
    if p == "" {
      assert t[0] == '$' && t[1] == c && t[2..] == q;
    } else {
      assert t[1..] == p[1..] + ("$" + ([c] + q));
      assert (p + "$")[1..] == p[1..] + "$";
      WithoutTail(p + "$", IsPattern);
      ExpandFirst(p[1..], c, q, matched, before, after);
      assert !DollarBefore(p + "$", 0, IsPattern);
      assert t[1] == (p + "$")[1];
      Assoc([t[0]], p[1..], put);
      assert [t[0]] + p[1..] == p;
    }
  }

  /** Text after which `$`-free text follows that completes no pattern. */
  lemma {:induction false} ExpandBefore(t: string, rest: string, matched: string, before: string, after: string)
    requires '$' !in rest && rest != "" && !IsPattern(rest[0])
    ensures Expand(t + rest, matched, before, after) == Expand(t, matched, before, after) + rest
    decreases |t|
  {
    if t == "" {
      assert t + rest == rest;
      DollarFree(rest, IsPattern);
      ExpandInert(rest, matched, before, after);
    } else if t[0] == '$' && |t| > 1 && IsPattern(t[1]) {
      assert (t + rest)[2..] == t[2..] + rest;
      ExpandBefore(t[2..], rest, matched, before, after);
      Assoc(Replacement(t[1], matched, before, after), Expand(t[2..], matched, before, after), rest);
    } else {
      assert (t + rest)[1..] == t[1..] + rest;
      assert |t| == 1 ==> (t + rest)[1] == rest[0];
      ExpandBefore(t[1..], rest, matched, before, after);
      Assoc([t[0]], Expand(t[1..], matched, before, after), rest);
    }
  }

  // ---------- Placeholders of the rewritten text ----------

  /** Text without placeholders that does not start with a digit or end with `$`. */
  ghost predicate Plain(t: string) {
    Without(t, IsDigit) && t != "" && !IsDigit(t[0]) && t[|t| - 1] != '$'
  }

  lemma NoPlaceholders(t: string, rest: string)
    requires t == "" || Plain(t)
    ensures SqlTemplate.Placeholders(t + rest) == SqlTemplate.Placeholders(rest)
  {
    forall i | 0 <= i < |t| && t[i] == '$' ensures !SqlTemplate.AtPlaceholder(t[i..] + rest) {
      assert !DollarBefore(t, i, IsDigit);
      assert (t[i..] + rest)[1] == t[i + 1];
    }
    SqlTemplate.PlaceholdersOfLiteral(t, rest);
  }

  /** Exchanging one piece of plain text for another leaves the placeholders alone. */
  lemma ReplacePlain(a: string, taken: string, put: string, b: string)
    requires Plain(put) && (Plain(taken) || (taken == "" && DigitRun(b) == 0))
    ensures SqlTemplate.Placeholders(a + put + b) == SqlTemplate.Placeholders(a + taken + b)
  {
    assert taken == "" ==> taken + b == b;
    PlaceholdersSplit(a, taken + b);
    PlaceholdersSplit(a, put + b);
    NoPlaceholders(taken, b);
    NoPlaceholders(put, b);
    Assoc(a, taken, b);
    Assoc(a, put, b);
  }

  /** The tenant id has no placeholder, and no replacement pattern where `replace` is used. */
  ghost predicate Insertable(sql: string, tenantId: string) {
    Without(tenantId, IsDigit) && (FindWhere(sql).Some? ==> Inert(tenantId + "'"))
  }

  lemma InsertedPlain(tenantId: string, ending: string)
    requires Without(tenantId, IsDigit) && '$' !in ending
    ensures Plain("WHERE " + Combined(tenantId) + ending)
  {
    DollarFree("'", IsDigit);
    WithoutConcat(tenantId, "'", IsDigit);
    InsertedWithout(tenantId, ending, IsDigit);
    InsertedText(tenantId, ending);
    var after := SOFT_DELETE_TEST + ending;
    assert after[|after| - 1] != '$';
  }

  lemma WhereNoDollar(sql: string, i: nat)
    requires MatchAt(sql, "WHERE", i)
    ensures i + 5 <= |sql| && Plain(sql[i..i + 5])
  {
    var w := sql[i..i + 5];
    forall k | 0 <= k < 5 ensures Up(w[k]) == "WHERE"[k] {
      assert Upper(w)[k] == Upper("WHERE")[k];
    }
    DollarFree(w, IsDigit);
  }

  /** `replace` inserts the filters as they are when no `$` of the tenant id, or before its quote, is a pattern. */
  lemma ReplaceIsPlain(sql: string, i: nat, tenantId: string)
    requires i + 5 <= |sql| && Inert(tenantId + "'")
    ensures AtWhere(sql, i, tenantId) == sql[..i] + ("WHERE " + Combined(tenantId) + " AND") + sql[i + 5..]
  {
    InsertedWithout(tenantId, " AND", IsPattern);
    ExpandInert("WHERE " + Combined(tenantId) + " AND", sql[i..i + 5], sql[..i], sql[i + 5..]);
  }

  lemma SameMiddle(a: string, x: string, y: string, b: string)
    ensures a + x + b == a + y + b <==> x == y
  {
    assert (a + x + b)[|a|..|a| + |x|] == x;
    assert |x| == |y| ==> (a + y + b)[|a|..|a| + |x|] == y;
  }

  const LIVE_SUFFIX := " AND deleted_at IS NULL"

  lemma SuffixText()
    ensures SOFT_DELETE_TEST == "'" + LIVE_SUFFIX
  {
  }

  lemma TenantText(tenantId: string)
    ensures "WHERE " + Combined(tenantId) + " AND" == CLAUSE_START + (Escape(tenantId) + "'" + (LIVE_SUFFIX + " AND"))
  {
    InsertedText(tenantId, " AND");
    SuffixText();
    Assoc("'", LIVE_SUFFIX, " AND");
    Assoc(Escape(tenantId), "'", LIVE_SUFFIX + " AND");
  }

  /**
   For every tenant id: what is inserted is its escaped text with the closing
   quote, expanded; so the filters are inserted as they are exactly when
   expanding that text does not change it.
   */
  lemma TenantIsExpanded(sql: string, i: nat, tenantId: string)
    requires i + 5 <= |sql|
    ensures var quoted := Escape(tenantId) + "'";
            var put := Expand(quoted, sql[i..i + 5], sql[..i], sql[i + 5..]);
            && AtWhere(sql, i, tenantId)
               == sql[..i] + (CLAUSE_START + (put + (LIVE_SUFFIX + " AND"))) + sql[i + 5..]
            && (AtWhere(sql, i, tenantId) == sql[..i] + ("WHERE " + Combined(tenantId) + " AND") + sql[i + 5..]
                <==> put == quoted)
  {
    var matched, before, after := sql[i..i + 5], sql[..i], sql[i + 5..];
    var quoted, rest := Escape(tenantId) + "'", LIVE_SUFFIX + " AND";
    var put := Expand(quoted, matched, before, after);
    TenantText(tenantId);
    StartIncludes();
    ExpandLiteral(CLAUSE_START, quoted + rest, matched, before, after);
    assert rest[0] == ' ' && '$' !in rest;
    ExpandBefore(quoted, rest, matched, before, after);
    SameMiddle(before, CLAUSE_START + (put + rest), CLAUSE_START + (quoted + rest), after);
    Assoc(CLAUSE_START, put, rest);
    Assoc(CLAUSE_START, quoted, rest);
    SameMiddle(CLAUSE_START, put, quoted, rest);
  }

  /** A doubled `$` loses one, and `$&` becomes the keyword: such a tenant id is never inserted as it is. */
  lemma DollarTenantIsExpanded(sql: string, i: nat, tenantId: string, p: string, c: char, q: string)
    requires i + 5 <= |sql| && Escape(tenantId) + "'" == p + ("$" + ([c] + q))
    requires Inert(p + "$") && (c == '$' || c == '&') && Inert(q)
    ensures AtWhere(sql, i, tenantId) != sql[..i] + ("WHERE " + Combined(tenantId) + " AND") + sql[i + 5..]
  {
    var matched, before, after := sql[i..i + 5], sql[..i], sql[i + 5..];
    TenantIsExpanded(sql, i, tenantId);
    ExpandFirst(p, c, q, matched, before, after);
    ExpandInert(q, matched, before, after);
    assert |p + (Replacement(c, matched, before, after) + q)| != |p + ("$" + ([c] + q))|;
  }

  lemma SplitThree(s: string, i: nat, j: nat)
    requires i <= j <= |s|
    ensures s[..i] + s[i..j] + s[j..] == s
  {
  }

  lemma ReplacedKeeps(sql: string, i: nat, put: string)
    requires MatchAt(sql, "WHERE", i) && Plain(put)
    ensures i + 5 <= |sql|
    ensures SqlTemplate.Placeholders(sql[..i] + put + sql[i + 5..]) == SqlTemplate.Placeholders(sql)
  {
    WhereNoDollar(sql, i);
    SplitThree(sql, i, i + 5);
    ReplacePlain(sql[..i], sql[i..i + 5], put, sql[i + 5..]);
  }

  lemma AtWhereKeepsPlaceholders(sql: string, i: nat, tenantId: string)
    requires MatchAt(sql, "WHERE", i) && Without(tenantId, IsDigit) && Inert(tenantId + "'")
    ensures i + 5 <= |sql|
    ensures SqlTemplate.Placeholders(AtWhere(sql, i, tenantId)) == SqlTemplate.Placeholders(sql)
  {
    InsertedPlain(tenantId, " AND");
    ReplacedKeeps(sql, i, "WHERE " + Combined(tenantId) + " AND");
    ReplaceIsPlain(sql, i, tenantId);
  }

  lemma NewClauseKeepsPlaceholders(sql: string, i: nat, tenantId: string)
    requires i < |sql| && MatchAnyAt(sql, TAIL_WORDS, i) && Without(tenantId, IsDigit)
    ensures SqlTemplate.Placeholders(BeforeTail(sql, i, tenantId)) == SqlTemplate.Placeholders(sql)
  {
    var head, rest := sql[..i], sql[i..];
    SplitThree(sql, i, i);
    assert sql[i..i] == "";
    TailNoDigit(sql, i);
    var put := "WHERE " + Combined(tenantId) + " ";
    InsertedPlain(tenantId, " ");
    ReplacePlain(head, "", put, rest);
  }

  lemma AtEndKeepsPlaceholders(sql: string, tenantId: string)
    requires Without(tenantId, IsDigit)
    ensures SqlTemplate.Placeholders(AtEnd(sql, tenantId)) == SqlTemplate.Placeholders(sql)
  {
    var clause := "WHERE " + Combined(tenantId) + "";
    InsertedPlain(tenantId, "");
    assert clause == "WHERE " + Combined(tenantId);
    assert " WHERE " == " " + "WHERE ";
    Assoc(" ", "WHERE ", Combined(tenantId));
    PlaceholdersSplit(sql, " " + clause);
    DollarFree(" ", IsDigit);
    NoPlaceholders(" ", clause);
    NoPlaceholders(clause, "");
    assert clause + "" == clause;
  }

  /** The rewritten statement has the same placeholders, so the same parameters stand where they stood. */
  lemma InjectKeepsPlaceholders(sql: string, tenantId: string)
    requires Insertable(sql, tenantId)
    ensures SqlTemplate.Placeholders(InjectFilters(sql, tenantId)) == SqlTemplate.Placeholders(sql)
  {
    var where, tail := FindWhere(sql), FindTail(sql);
    if where.Some? {
      AtWhereKeepsPlaceholders(sql, where.value, tenantId);
    } else {
      if tail.Some? {
        NewClauseKeepsPlaceholders(sql, tail.value, tenantId);
      }
      AtEndKeepsPlaceholders(sql, tenantId);
    }
  }

  lemma TailWord(w: string)
    requires w in TAIL_WORDS
    ensures w != "" && Up(w[0]) in "OLGH"
  {
    assert w == "ORDER BY" || w == "LIMIT" || w == "GROUP BY" || w == "HAVING";
  }

  lemma TailNoDigit(sql: string, i: nat)
    requires i < |sql| && MatchAnyAt(sql, TAIL_WORDS, i)
    ensures !IsDigit(sql[i])
  {
    var w :| w in TAIL_WORDS && MatchAt(sql, w, i);
    TailWord(w);
    FirstFolded(sql, w, i);
  }
}
