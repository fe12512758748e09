/** SQL character literals: quotes are doubled (section 5.3, literal, of ISO/IEC 9075-2). */
module SqlLiteral {
  import opened Wrappers

  function Quoted(c: char): string {
    if c == '\'' then "''" else [c]
  }

  /** `replace(/'/g, "''")`. */
  function Escape(s: string): string {
    if s == "" then "" else Quoted(s[0]) + Escape(s[1..])
  }

  /** Escaping goes character by character, and doubles quotes and nothing else. */
  lemma {:induction false} EscapeAppend(a: string, b: string)
    ensures Escape(a + b) == Escape(a) + Escape(b)
    ensures Escape("'") == "''" && forall c :: c != '\'' ==> Escape([c]) == [c]
  {
    assert forall c: char :: [c][1..] == "";
    if a == "" {
      assert a + b == b;
    } else {
      assert (a + b)[1..] == a[1..] + b;
      EscapeAppend(a[1..], b);
    }
  }

  lemma Assoc(a: string, b: string, c: string)
    ensures a + b + c == a + (b + c)
  {
  }

  datatype Lexed = Lexed(value: string, rest: string)

  /** Reads a literal after its opening quote, up to and including its closing quote. */
  function Lex(s: string): (r: Option<Lexed>)
    ensures r.Some? ==> |r.value.rest| < |s|
  {
    if s == "" then None
    else if s[0] != '\'' then
      match Lex(s[1..])
      case None => None
      case Some(l) => Some(Lexed([s[0]] + l.value, l.rest))
    else if |s| > 1 && s[1] == '\'' then
      match Lex(s[2..])
      case None => None
      case Some(l) => Some(Lexed("'" + l.value, l.rest))
    else Some(Lexed("", s[1..]))
  }

  lemma LexStep(c: char, tail: string)
    ensures Lex(Quoted(c) + tail) == match Lex(tail)
                                     case None => None
                                     case Some(l) => Some(Lexed([c] + l.value, l.rest))
  {
    assert (Quoted(c) + tail)[|Quoted(c)|..] == tail;
  }

  /** Whatever the value, lexing recovers it and stops at its closing quote. */
  lemma {:induction false} LexEscaped(value: string, rest: string)
    requires rest == "" || rest[0] != '\''
    ensures Lex(Escape(value) + ("'" + rest)) == Some(Lexed(value, rest))
  {
    if value == "" {
      assert Escape(value) + ("'" + rest) == "'" + rest;
    } else {
      LexEscaped(value[1..], rest);
      LexStep(value[0], Escape(value[1..]) + ("'" + rest));
      Assoc(Quoted(value[0]), Escape(value[1..]), "'" + rest);
      assert value == [value[0]] + value[1..];
    }
  }

  predicate StartsWith(s: string, prefix: string) {
    |prefix| <= |s| && s[..|prefix|] == prefix
  }
}
