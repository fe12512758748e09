/**
 How a database reads a SELECT: text is cut into words, literals and symbols;
 the condition runs from the first outer WHERE to the first outer tail keyword,
 and is a disjunction of conjunctions of tests.
 */
module SqlReader {
  import opened Wrappers
  import opened SqlText
  import SqlLiteral

  /** Words are kept in upper case. */
  datatype Token = Word(text: string) | Quote(value: string) | Sym(c: char)

  function WordRun(s: string): (n: nat)
    ensures n <= |s| && (forall i :: 0 <= i < n ==> IsWord(s[i])) && (n < |s| ==> !IsWord(s[n]))
    ensures s != "" && IsWord(s[0]) ==> n > 0
  {
    if s == "" || !IsWord(s[0]) then 0 else 1 + WordRun(s[1..])
  }

  function Tokens(s: string): seq<Token>
    decreases |s|
  {
    if s == "" then []
    else if s[0] == '\'' then
      match SqlLiteral.Lex(s[1..])
      case Some(l) => [Quote(l.value)] + Tokens(l.rest)
      case None => [Sym('\'')] + Tokens(s[1..])
    else if IsWord(s[0]) then
      var n := WordRun(s);
      [Word(Upper(s[..n]))] + Tokens(s[n..])
    else if IsSpace(s[0]) then Tokens(s[1..])
    else [Sym(s[0])] + Tokens(s[1..])
  }

  /** Every literal that starts in `s` ends in `s`. */
  predicate Closed(s: string)
    decreases |s|
  {
    if s == "" then true
    else if s[0] == '\'' then
      match SqlLiteral.Lex(s[1..])
      case Some(l) => Closed(l.rest)
      case None => false
    else Closed(s[1..])
  }

  // ---------- Cutting text where it can be cut ----------

  /** A literal that ends inside `s` is read the same when more text follows. */
  lemma {:induction false} LexAppend(s: string, b: string)
    requires SqlLiteral.Lex(s).Some? && (b == "" || b[0] != '\'')
    ensures var l := SqlLiteral.Lex(s).value; SqlLiteral.Lex(s + b) == Some(SqlLiteral.Lexed(l.value, l.rest + b))
    decreases |s|
  {
    if s[0] != '\'' {
      assert (s + b)[1..] == s[1..] + b;
      LexAppend(s[1..], b);
    } else if |s| > 1 && s[1] == '\'' {
      assert (s + b)[2..] == s[2..] + b;
      LexAppend(s[2..], b);
    } else {
      assert (s + b)[1..] == s[1..] + b;
    }
  }

  /** May `b` follow `a` without a word or a literal running across? */
  predicate Cut(a: string, b: string) {
    b == "" || (b[0] != '\'' && (a == "" || !IsWord(a[|a| - 1]) || !IsWord(b[0])))
  }

  lemma {:induction false} WordRunAppend(a: string, b: string)
    requires Cut(a, b) && a != "" && IsWord(a[0])
    ensures WordRun(a + b) == WordRun(a)
  {
    assert (a + b)[1..] == a[1..] + b;
    if |a| > 1 && IsWord(a[1]) {
      WordRunAppend(a[1..], b);
    }
  }

  lemma {:induction false} ClosedTail(s: string, n: nat)
    requires Closed(s) && n <= |s| && forall i :: 0 <= i < n ==> s[i] != '\''
    ensures Closed(s[n..])
  {
    if n == 0 {
      assert s[0..] == s;
    } else {
      ClosedTail(s[1..], n - 1);
      assert s[1..][n - 1..] == s[n..];
    }
  }

  lemma LexedRest(s: string)
    requires SqlLiteral.Lex(s).Some?
    ensures var l := SqlLiteral.Lex(s).value;
            |l.rest| <= |s| && l.rest == s[|s| - |l.rest|..]
    decreases |s|
  {
    if s[0] != '\'' {
      LexedRest(s[1..]);
    } else if |s| > 1 && s[1] == '\'' {
      LexedRest(s[2..]);
    }
  }

  lemma QuoteFirst(a: string, b: string) returns (t: seq<Token>, rest: string)
    requires Closed(a) && Cut(a, b) && a != "" && a[0] == '\''
    ensures |rest| < |a| && Closed(rest) && Cut(rest, b)
    ensures Tokens(a) == t + Tokens(rest) && Tokens(a + b) == t + Tokens(rest + b)
  {
    LexAppend(a[1..], b);
    assert (a + b)[1..] == a[1..] + b;
    LexedRest(a[1..]);
    var l := SqlLiteral.Lex(a[1..]).value;
    t, rest := [Quote(l.value)], l.rest;
  }

  lemma WordFirst(a: string, b: string) returns (t: seq<Token>, rest: string)
    requires Closed(a) && Cut(a, b) && a != "" && IsWord(a[0])
    ensures |rest| < |a| && Closed(rest) && Cut(rest, b)
    ensures Tokens(a) == t + Tokens(rest) && Tokens(a + b) == t + Tokens(rest + b)
  {
    var n := WordRun(a);
    WordRunAppend(a, b);
    assert (a + b)[..n] == a[..n] && (a + b)[n..] == a[n..] + b;
    ClosedTail(a, n);
    t, rest := [Word(Upper(a[..n]))], a[n..];
  }

  lemma TokensOther(s: string)
    requires s != "" && s[0] != '\'' && !IsWord(s[0])
    ensures Tokens(s) == (if IsSpace(s[0]) then [] else [Sym(s[0])]) + Tokens(s[1..])
  {
    assert [] + Tokens(s[1..]) == Tokens(s[1..]);
  }

  lemma OtherFirst(a: string, b: string) returns (t: seq<Token>, rest: string)
    requires Closed(a) && Cut(a, b) && a != "" && a[0] != '\'' && !IsWord(a[0])
    ensures |rest| < |a| && Closed(rest) && Cut(rest, b)
    ensures Tokens(a) == t + Tokens(rest) && Tokens(a + b) == t + Tokens(rest + b)
  {
    TokensOther(a);
    TokensOther(a + b);
    assert (a + b)[1..] == a[1..] + b && (a + b)[0] == a[0];
    t, rest := if IsSpace(a[0]) then [] else [Sym(a[0])], a[1..];
  }

  lemma FirstToken(a: string, b: string) returns (t: seq<Token>, rest: string)
    requires Closed(a) && Cut(a, b) && a != ""
    ensures |rest| < |a| && Closed(rest) && Cut(rest, b)
    ensures Tokens(a) == t + Tokens(rest) && Tokens(a + b) == t + Tokens(rest + b)
  {
    if a[0] == '\'' {
      t, rest := QuoteFirst(a, b);
    } else if IsWord(a[0]) {
      t, rest := WordFirst(a, b);
    } else {
      t, rest := OtherFirst(a, b);
    }
  }

  /** Text that can be cut is read part by part. */
  lemma {:induction false} TokensAppend(a: string, b: string)
    requires Closed(a) && Cut(a, b)
    ensures Tokens(a + b) == Tokens(a) + Tokens(b)
    decreases |a|
  {
    if a == "" {
      assert a + b == b;
    } else {
      var t, rest := FirstToken(a, b);
      TokensAppend(rest, b);
      PrependTokens(t, Tokens(a), Tokens(a + b), Tokens(rest), Tokens(rest + b), Tokens(b));
    }
  }

  lemma PrependTokens(t: seq<Token>, a: seq<Token>, ab: seq<Token>, rest: seq<Token>, restB: seq<Token>, b: seq<Token>)
    requires a == t + rest && ab == t + restB && restB == rest + b
    ensures ab == a + b
  {
    AssocTokens(t, rest, b);
  }

  lemma AssocTokens(x: seq<Token>, y: seq<Token>, z: seq<Token>)
    ensures x + y + z == x + (y + z)
  {
  }

  /** A whole word followed by text that does not continue it. */
  lemma TokensWord(word: string, rest: string)
    requires word != "" && (forall i :: 0 <= i < |word| ==> IsWord(word[i]))
    requires rest == "" || !IsWord(rest[0])
    ensures Tokens(word + rest) == [Word(Upper(word))] + Tokens(rest)
  {
    WordRunOf(word, rest);
    assert (word + rest)[..|word|] == word && (word + rest)[|word|..] == rest;
  }

  lemma {:induction false} WordRunOf(word: string, rest: string)
    requires (forall i :: 0 <= i < |word| ==> IsWord(word[i])) && (rest == "" || !IsWord(rest[0]))
    ensures WordRun(word + rest) == |word|
  {
    if word == "" {
      assert word + rest == rest;
    } else {
      assert (word + rest)[1..] == word[1..] + rest;
      WordRunOf(word[1..], rest);
    }
  }

  lemma TokensSpace(rest: string)
    ensures Tokens(" " + rest) == Tokens(rest)
  {
    assert (" " + rest)[1..] == rest;
  }

  /** An escaped literal is read back as its value. */
  lemma TokensLiteral(value: string, rest: string)
    requires rest == "" || rest[0] != '\''
    ensures Tokens("'" + (SqlLiteral.Escape(value) + ("'" + rest))) == [Quote(value)] + Tokens(rest)
  {
    var text := SqlLiteral.Escape(value) + ("'" + rest);
    assert ("'" + text)[1..] == text;
    SqlLiteral.LexEscaped(value, rest);
  }

  // ---------- Words of the text and words the regular expressions find ----------

  /** Is `k` not in the middle of a word? */
  predicate WordStart(s: string, k: nat)
    requires k <= |s|
  {
    k == 0 || k == |s| || !IsWord(s[k - 1]) || !IsWord(s[k])
  }

  lemma NextQuote(s: string, k: nat) returns (m: nat, t: seq<Token>)
    requires k < |s| && s[k] == '\''
    ensures k < m <= |s| && WordStart(s, m) && Tokens(s[k..]) == t + Tokens(s[m..])
    ensures |t| == 1 && !t[0].Word?
  {
    var tail := s[k + 1..];
    assert s[k..][1..] == tail;
    match SqlLiteral.Lex(tail)
    case Some(l) =>
      LexedRest(tail);
      QuoteBefore(tail);
      m, t := |s| - |l.rest|, [Quote(l.value)];
      assert l.rest == s[m..] && s[m - 1] == tail[|tail| - |l.rest| - 1];
    case None =>
      m, t := k + 1, [Sym('\'')];
  }

  lemma NextWord(s: string, k: nat) returns (m: nat, t: seq<Token>)
    requires k < |s| && IsWord(s[k])
    ensures k < m <= |s| && (m < |s| ==> !IsWord(s[m])) && WordStart(s, m)
    ensures t == [Word(Upper(s[k..m]))] && Tokens(s[k..]) == t + Tokens(s[m..])
  {
    var n := WordRun(s[k..]);
    m, t := k + n, [Word(Upper(s[k..k + n]))];
    assert s[k..][n..] == s[m..] && s[k..][..n] == s[k..m];
    assert n < |s[k..]| ==> s[k..][n] == s[m];
  }

  /** A word that `\bword\b` never matches is not among the words read. */
  lemma {:induction false} UnmatchedNotRead(s: string, word: string, k: nat)
    requires k <= |s| && WordStart(s, k)
    requires forall i :: k <= i < |s| ==> !MatchAt(s, word, i)
    ensures Word(Upper(word)) !in Tokens(s[k..])
    decreases |s| - k
  {
    if k < |s| {
      if s[k] == '\'' {
        var m, t := NextQuote(s, k);
        UnmatchedNotRead(s, word, m);
      } else if IsWord(s[k]) {
        var m, t := NextWord(s, k);
        assert |Upper(s[k..m])| == m - k && |Upper(word)| == |word|;
        assert !MatchAt(s, word, k);
        UnmatchedNotRead(s, word, m);
      } else {
        assert s[k..][1..] == s[k + 1..];
        UnmatchedNotRead(s, word, k + 1);
      }
    }
  }

  /** The character before what follows a literal is its closing quote. */
  lemma {:induction false} QuoteBefore(s: string)
    requires SqlLiteral.Lex(s).Some?
    ensures var rest := SqlLiteral.Lex(s).value.rest; |rest| < |s| && s[|s| - |rest| - 1] == '\''
    decreases |s|
  {
    if s[0] != '\'' {
      QuoteBefore(s[1..]);
    } else if |s| > 1 && s[1] == '\'' {
      QuoteBefore(s[2..]);
    }
  }

  // ---------- Reading a SELECT ----------

  /** A parenthesis, a bracket or CASE opens a nested expression. */
  predicate Opens(t: Token) {
    t == Sym('(') || t == Sym('[') || t == Word("CASE")
  }

  predicate Closes(t: Token) {
    t == Sym(')') || t == Sym(']') || t == Word("END")
  }

  function Depth(t: Token, depth: nat): nat {
    if Opens(t) then depth + 1 else if Closes(t) && depth > 0 then depth - 1 else depth
  }

  function DepthAfter(ts: seq<Token>, depth: nat): nat {
    if ts == [] then depth else DepthAfter(ts[1..], Depth(ts[0], depth))
  }

  /** A keyword, or the semicolon, that ends the condition whatever follows it. */
  predicate EndsCondition(t: Token) {
    || t == Word("LIMIT") || t == Word("HAVING") || t == Word("OFFSET") || t == Word("FETCH")
    || t == Word("FOR") || t == Word("WINDOW") || t == Sym(';')
  }

  /** The start of what may follow the condition. */
  predicate TailAt(ts: seq<Token>) {
    ts != [] &&
    (|| EndsCondition(ts[0])
     || ((ts[0] == Word("ORDER") || ts[0] == Word("GROUP")) && |ts| > 1 && ts[1] == Word("BY")))
  }

  /** Is there an outer WHERE, or anything after an outer semicolon? */
  predicate Broken(ts: seq<Token>, depth: nat) {
    ts != [] &&
    (|| (depth == 0 && (ts[0] == Word("WHERE") || (ts[0] == Sym(';') && |ts| > 1)))
     || Broken(ts[1..], Depth(ts[0], depth)))
  }

  /** What a SELECT restricts its rows to; a second outer WHERE, or one after the tail, is a syntax error. */
  datatype Reading = Unrestricted | Restricted(condition: seq<Token>) | Malformed

  function Read(ts: seq<Token>, depth: nat): Reading {
    if ts == [] then Unrestricted
    else if depth == 0 && ts[0] == Word("WHERE") then
      if Broken(ts[1..], 0) then Malformed else Restricted(Condition(ts[1..], 0))
    else if depth == 0 && TailAt(ts) then
      if Broken(ts, 0) then Malformed else Unrestricted
    else Read(ts[1..], Depth(ts[0], depth))
  }

  predicate CombinesSelects(t: Token) {
    t == Word("UNION") || t == Word("EXCEPT") || t == Word("INTERSECT")
  }

  /** The SELECTs a statement combines. */
  function Arms(ts: seq<Token>, depth: nat): (r: seq<seq<Token>>)
    ensures |r| > 0
  {
    if ts == [] then [[]]
    else if depth == 0 && CombinesSelects(ts[0]) then [[]] + Arms(ts[1..], 0)
    else
      var r := Arms(ts[1..], Depth(ts[0], depth));
      [[ts[0]] + r[0]] + r[1..]
  }

  function Statement(ts: seq<Token>): seq<Reading> {
    var arms := Arms(ts, 0);
    seq(|arms|, i requires 0 <= i < |arms| => Read(arms[i], 0))
  }

  /** The tokens up to the first outer tail keyword. */
  function Condition(ts: seq<Token>, depth: nat): seq<Token> {
    if ts == [] || (depth == 0 && TailAt(ts)) then []
    else [ts[0]] + Condition(ts[1..], Depth(ts[0], depth))
  }

  /** Is a BETWEEN still waiting for its AND? */
  function Between(t: Token, depth: nat, between: bool): bool {
    if depth > 0 then between
    else if t == Word("BETWEEN") then true
    else if t == Word("AND") then false
    else between
  }

  /** Splits at the outer occurrences of a connective; the AND of a BETWEEN does not count. */
  function Split(ts: seq<Token>, connective: string, depth: nat, between: bool): (r: seq<seq<Token>>)
    ensures |r| > 0
  {
    if ts == [] then [[]]
    else if depth == 0 && !between && ts[0] == Word(connective) then [[]] + Split(ts[1..], connective, 0, false)
    else
      var r := Split(ts[1..], connective, Depth(ts[0], depth), Between(ts[0], depth, between));
      [[ts[0]] + r[0]] + r[1..]
  }

  function Disjuncts(condition: seq<Token>): seq<seq<Token>> {
    Split(condition, "OR", 0, false)
  }

  function Conjuncts(disjunct: seq<Token>): seq<seq<Token>> {
    Split(disjunct, "AND", 0, false)
  }

  predicate Conjunction(disjunct: seq<Token>, holds: seq<Token> -> bool) {
    forall t :: t in Conjuncts(disjunct) ==> holds(t)
  }

  /** Is a row accepted, when `holds` says which tests are true of it? */
  predicate Accepts(condition: seq<Token>, holds: seq<Token> -> bool) {
    exists d :: d in Disjuncts(condition) && Conjunction(d, holds)
  }
}
