/**
 The SQL fragment composer of packages/db: templates, inlined fragments and
 joins, all of which renumber `$n` placeholders by rewriting text.

 A statement means a sequence of cells: characters, and values standing where
 a placeholder stood. The main theorem says exactly when composing text means
 the same as splicing the templates together first.
 */
module SqlTemplate {
  import opened Digits

  datatype Fragment<P> = Fragment(sql: string, params: seq<P>)

  /** What an interpolated `${...}` can be: a value to bind or a fragment to inline. */
  datatype Value<P> = Param(value: P) | Nested(fragment: Fragment<P>)

  // ---------- Renumbering ----------

  /** Does `\$(\d+)` match at the start of the text? */
  predicate AtPlaceholder(s: string) {
    |s| > 1 && s[0] == '$' && IsDigit(s[1])
  }

  /** The length of the placeholder at the start of the text: `$` and its greedy digit run. */
  function PlaceholderLength(s: string): (k: nat)
    requires AtPlaceholder(s)
    ensures 2 <= k <= |s| && AllDigits(s[1..k])
    ensures k < |s| ==> !IsDigit(s[k])
  {
    var run := DigitRun(s[1..]);
    assert s[1..][..run] == s[1..1 + run];
    1 + run
  }

  /** The placeholder `$n`. */
  function Mark(n: nat): string {
    "$" + Print(n)
  }

  /** `s.replace(/\$(\d+)/g, (_, n) => "$" + (parseInt(n) + offset))`. */
  function Shift(s: string, offset: nat): string
    decreases |s|
  {
    if s == "" then ""
    else if AtPlaceholder(s) then
      var k := PlaceholderLength(s);
      Mark(Parse(s[1..k]) + offset) + Shift(s[k..], offset)
    else
      [s[0]] + Shift(s[1..], offset)
  }

  // ---------- What the loops of `sql`, `sql.fragment` and `sql.join` build ----------

  datatype Item<P> = Literal(text: string) | Argument(value: P) | Inline(fragment: Fragment<P>)

  function ItemOf<P>(v: Value<P>): Item<P> {
    match v
    case Param(p) => Argument(p)
    case Nested(f) => Inline(f)
  }

  /** Appends one item to the statement built so far. */
  function Append<P>(acc: Fragment<P>, item: Item<P>): Fragment<P> {
    match item
    case Literal(t) => Fragment(acc.sql + t, acc.params)
    case Argument(p) => Fragment(acc.sql + Mark(|acc.params| + 1), acc.params + [p])
    case Inline(f) => Fragment(acc.sql + Shift(f.sql, |acc.params|), acc.params + f.params)
  }

  function Assemble<P>(items: seq<Item<P>>): Fragment<P> {
    if items == [] then Fragment("", [])
    else Append(Assemble(items[..|items| - 1]), items[|items| - 1])
  }

  lemma AssembleStep<P>(items: seq<Item<P>>, item: Item<P>)
    ensures Assemble(items + [item]) == Append(Assemble(items), item)
  {
    assert (items + [item])[..|items|] == items;
  }

  /** The first `n` strings of a template, each followed by its value when it has one. */
  function Interleave<P>(strings: seq<string>, values: seq<Item<P>>, n: nat): seq<Item<P>>
    requires n <= |strings|
  {
    if n == 0 then []
    else Interleave(strings, values, n - 1) + [Literal(strings[n - 1])]
         + if n - 1 < |values| then [values[n - 1]] else []
  }

  /** The first `n` of `parts` with `separator` between neighbours of the whole list. */
  function Intersperse<P>(parts: seq<Item<P>>, separator: Item<P>, n: nat): seq<Item<P>>
    requires n <= |parts|
  {
    if n == 0 then []
    else Intersperse(parts, separator, n - 1) + [parts[n - 1]]
         + if n < |parts| then [separator] else []
  }

  lemma InterleaveStep<P>(strings: seq<string>, values: seq<Value<P>>, i: nat)
    requires i < |strings|
    ensures var a := Assemble(Interleave(strings, Items(values), i));
            var b := Assemble(Interleave(strings, Items(values), i + 1));
            if i >= |values| then
              b.sql == a.sql + strings[i] && b.params == a.params
            else if values[i].Param? then
              b.sql == a.sql + strings[i] + Mark(|a.params| + 1) && b.params == a.params + [values[i].value]
            else
              b.sql == a.sql + strings[i] + Shift(values[i].fragment.sql, |a.params|)
              && b.params == a.params + values[i].fragment.params
  {
    var before := Interleave(strings, Items(values), i);
    AssembleStep(before, Literal(strings[i]));
    if i < |values| {
      AssembleStep(before + [Literal(strings[i])], Items(values)[i]);
    } else {
      assert before + [Literal(strings[i])] + [] == before + [Literal(strings[i])];
    }
  }

  lemma IntersperseStep<P>(parts: seq<Item<P>>, separator: Item<P>, i: nat)
    requires i < |parts|
    ensures var acc := Append(Assemble(Intersperse(parts, separator, i)), parts[i]);
            Assemble(Intersperse(parts, separator, i + 1)) == if i + 1 < |parts| then Append(acc, separator) else acc
  {
    var before := Intersperse(parts, separator, i);
    AssembleStep(before, parts[i]);
    if i + 1 < |parts| {
      AssembleStep(before + [parts[i]], separator);
    } else {
      assert before + [parts[i]] + [] == before + [parts[i]];
    }
  }

  function Items<P>(values: seq<Value<P>>): (items: seq<Item<P>>)
    ensures |items| == |values| && forall i :: 0 <= i < |values| ==> items[i] == ItemOf(values[i])
  {
    seq(|values|, i requires 0 <= i < |values| => ItemOf(values[i]))
  }

  function Inlined<P>(fragments: seq<Fragment<P>>): (items: seq<Item<P>>)
    ensures |items| == |fragments| && forall i :: 0 <= i < |items| ==> items[i] == Inline(fragments[i])
  {
    seq(|fragments|, i requires 0 <= i < |fragments| => Inline(fragments[i]))
  }

  // ---------- Flat statements ----------

  /** A flat statement: literal text and holes to be filled by bound values. */
  datatype Piece<P> = Lit(text: string) | Hole(value: P)

  function Params<P>(ps: seq<Piece<P>>): seq<P> {
    if ps == [] then []
    else (match ps[0] case Lit(_) => [] case Hole(v) => [v]) + Params(ps[1..])
  }

  /** The flat text, with holes numbered left to right from `base + 1`. */
  function Text<P>(ps: seq<Piece<P>>, base: nat): string {
    if ps == [] then ""
    else match ps[0]
      case Lit(t) => t + Text(ps[1..], base)
      case Hole(_) => Mark(base + 1) + Text(ps[1..], base + 1)
  }

  function Render<P>(ps: seq<Piece<P>>): Fragment<P> {
    Fragment(Text(ps, 0), Params(ps))
  }

  predicate StartsWithDigit<P>(ps: seq<Piece<P>>) {
    ps != [] && ps[0].Lit? &&
    if ps[0].text == "" then StartsWithDigit(ps[1..]) else IsDigit(ps[0].text[0])
  }

  /** Is the character after position `i` of `t`, where `rest` follows `t`, a digit? */
  predicate DigitAfter<P>(t: string, i: nat, rest: seq<Piece<P>>)
    requires i < |t|
  {
    if i + 1 < |t| then IsDigit(t[i + 1]) else StartsWithDigit(rest)
  }

  /** No hole, and no `$` of a literal, is directly followed by a digit. */
  predicate Clean<P>(ps: seq<Piece<P>>) {
    ps == [] ||
    (Clean(ps[1..]) &&
     match ps[0]
     case Hole(_) => !StartsWithDigit(ps[1..])
     case Lit(t) =>
       forall i {:trigger DigitAfter(t, i, ps[1..])} :: 0 <= i < |t| && t[i] == '$' ==> !DigitAfter(t, i, ps[1..]))
  }

  // ---------- The meaning of a statement ----------

  datatype Cell<P> = Ch(c: char) | Bound(value: P) | Unbound(index: nat)

  function Lookup<P>(params: seq<P>, n: nat): Cell<P> {
    if 1 <= n <= |params| then Bound(params[n - 1]) else Unbound(n)
  }

  /** The statement a driver sees: every placeholder replaced by the value it stands for. */
  function Meaning<P>(text: string, params: seq<P>): seq<Cell<P>>
    decreases |text|
  {
    if text == "" then []
    else if AtPlaceholder(text) then
      var k := PlaceholderLength(text);
      [Lookup(params, Parse(text[1..k]))] + Meaning(text[k..], params)
    else
      [Ch(text[0])] + Meaning(text[1..], params)
  }

  function Chars<P>(t: string): (cells: seq<Cell<P>>)
    ensures |cells| == |t|
  {
    seq(|t|, i requires 0 <= i < |t| => Ch(t[i]))
  }

  /** The meaning a flat statement is meant to have. */
  function Cells<P>(ps: seq<Piece<P>>): seq<Cell<P>> {
    if ps == [] then []
    else (match ps[0] case Lit(t) => Chars(t) case Hole(v) => [Bound(v)]) + Cells(ps[1..])
  }

  // ---------- Scanning lemmas ----------

  lemma PlaceholderAppend(n: nat, rest: string)
    ensures var s := Mark(n) + rest;
            && AtPlaceholder(s)
            && PlaceholderLength(s) == 1 + |Print(n)| + DigitRun(rest)
  {
    assert (Mark(n) + rest)[1..] == Print(n) + rest;
    DigitRunAppend(Print(n), rest);
  }

  /** A numeral not followed by a digit is read back as one placeholder. */
  lemma ScanHole<P>(n: nat, rest: string, params: seq<P>)
    requires DigitRun(rest) == 0
    ensures var s := Mark(n) + rest;
            && Meaning(s, params) == [Lookup(params, n)] + Meaning(rest, params)
            && forall k: nat :: Shift(s, k) == Mark(n + k) + Shift(rest, k)
  {
    var s := Mark(n) + rest;
    PlaceholderAppend(n, rest);
    assert s[1..1 + |Print(n)|] == Print(n);
    assert s[1 + |Print(n)|..] == rest;
    ParsePrint(n);
  }

  /** No `$` of the literal `t` meets a digit when `rest` follows. */
  predicate Harmless(t: string, rest: string) {
    forall i {:trigger t[i]} :: 0 <= i < |t| && t[i] == '$' ==> !AtPlaceholder(t[i..] + rest)
  }

  lemma HarmlessTail(t: string, rest: string)
    requires t != "" && Harmless(t, rest)
    ensures !AtPlaceholder(t + rest) && (t + rest)[1..] == t[1..] + rest
    ensures Harmless(t[1..], rest)
  {
    assert t[0..] + rest == t + rest;
    forall i | 0 <= i < |t[1..]| && t[1..][i] == '$'
      ensures !AtPlaceholder(t[1..][i..] + rest)
    {
      assert t[1..][i..] == t[i + 1..];
      assert t[i + 1] == '$';
    }
  }

  /** Harmless literal text is scanned character by character. */
  lemma {:induction false} ScanLiteral<P>(t: string, rest: string, params: seq<P>)
    requires Harmless(t, rest)
    ensures Meaning(t + rest, params) == Chars(t) + Meaning(rest, params)
  {
    if t == "" {
      assert t + rest == rest;
      assert Chars<P>(t) == [];
    } else {
      HarmlessTail(t, rest);
      ScanLiteral(t[1..], rest, params);
      assert Chars<P>(t) == [Ch(t[0])] + Chars(t[1..]);
    }
  }

  lemma ShiftFirst(s: string, k: nat)
    requires s != "" && !AtPlaceholder(s)
    ensures Shift(s, k) == [s[0]] + Shift(s[1..], k)
  {
  }

  lemma {:induction false} ShiftLiteral(t: string, rest: string, k: nat)
    requires Harmless(t, rest)
    ensures Shift(t + rest, k) == t + Shift(rest, k)
  {
    if t == "" {
      assert t + rest == rest;
    } else {
      HarmlessTail(t, rest);
      ShiftFirst(t + rest, k);
      ShiftLiteral(t[1..], rest, k);
      PrependText([t[0]], t, Shift(t + rest, k), t[1..], Shift(t[1..] + rest, k), Shift(rest, k));
    }
  }

  lemma {:induction false} FirstCharacter<P>(ps: seq<Piece<P>>, base: nat)
    ensures StartsWithDigit(ps) <==> Text(ps, base) != "" && IsDigit(Text(ps, base)[0])
    ensures StartsWithDigit(ps) <==> DigitRun(Text(ps, base)) > 0
  {
    if ps != [] && ps[0] == Lit("") {
      FirstCharacter(ps[1..], base);
      assert "" + Text(ps[1..], base) == Text(ps[1..], base);
    }
  }

  lemma {:induction false} DigitAfterMeansPlaceholder<P>(t: string, i: nat, rest: seq<Piece<P>>, base: nat)
    requires i < |t| && t[i] == '$'
    ensures DigitAfter(t, i, rest) <==> AtPlaceholder(t[i..] + Text(rest, base))
  {
    FirstCharacter(rest, base);
  }

  lemma CleanLiteral<P>(t: string, rest: seq<Piece<P>>, base: nat)
    requires Clean([Lit(t)] + rest)
    ensures Harmless(t, Text(rest, base))
  {
    assert ([Lit(t)] + rest)[1..] == rest;
    forall i | 0 <= i < |t| && t[i] == '$'
      ensures !AtPlaceholder(t[i..] + Text(rest, base))
    {
      DigitAfterMeansPlaceholder(t, i, rest, base);
    }
  }

  /** Renumbering a clean statement is the same as numbering its holes further on. */
  lemma {:induction false} ShiftText<P>(ps: seq<Piece<P>>, base: nat, k: nat)
    requires Clean(ps)
    ensures Shift(Text(ps, base), k) == Text(ps, base + k)
  {
    if ps != [] {
      match ps[0]
      case Lit(t) =>
        ShiftText(ps[1..], base, k);
        assert ps == [Lit(t)] + ps[1..];
        CleanLiteral(t, ps[1..], base);
        ShiftLiteral(t, Text(ps[1..], base), k);
      case Hole(_) =>
        ShiftText(ps[1..], base + 1, k);
        FirstCharacter(ps[1..], base + 1);
        ScanHole<P>(base + 1, Text(ps[1..], base + 1), []);
    }
  }

  lemma HoleParams<P>(ps: seq<Piece<P>>, base: nat, params: seq<P>)
    requires ps != [] && ps[0].Hole?
    requires base + |Params(ps)| <= |params| && params[base..base + |Params(ps)|] == Params(ps)
    ensures base < |params| && params[base] == ps[0].value
    ensures |Params(ps)| == 1 + |Params(ps[1..])|
    ensures params[base + 1..base + 1 + |Params(ps[1..])|] == Params(ps[1..])
  {
    assert Params(ps)[0] == ps[0].value && Params(ps)[1..] == Params(ps[1..]);
    assert params[base] == params[base..base + |Params(ps)|][0];
    assert params[base + 1..base + 1 + |Params(ps[1..])|] == params[base..base + |Params(ps)|][1..];
  }

  /** A clean flat statement means what it is meant to mean. */
  lemma {:induction false} CleanMeaning<P>(ps: seq<Piece<P>>, base: nat, params: seq<P>)
    requires Clean(ps)
    requires base + |Params(ps)| <= |params| && params[base..base + |Params(ps)|] == Params(ps)
    ensures Meaning(Text(ps, base), params) == Cells(ps)
  {
    if ps != [] {
      match ps[0]
      case Lit(t) =>
        assert Params(ps) == Params(ps[1..]);
        CleanMeaning(ps[1..], base, params);
        assert ps == [Lit(t)] + ps[1..];
        CleanLiteral(t, ps[1..], base);
        ScanLiteral(t, Text(ps[1..], base), params);
      case Hole(v) =>
        HoleParams(ps, base, params);
        CleanMeaning(ps[1..], base + 1, params);
        FirstCharacter(ps[1..], base + 1);
        ScanHole(base + 1, Text(ps[1..], base + 1), params);
    }
  }

  // ---------- Counting what a scan sees ----------

  /** How many cells a text is read as. */
  function Tokens(text: string): nat
    decreases |text|
  {
    if text == "" then 0
    else if AtPlaceholder(text) then 1 + Tokens(text[PlaceholderLength(text)..])
    else 1 + Tokens(text[1..])
  }

  lemma {:induction false} TokensOfMeaning<P>(text: string, params: seq<P>)
    ensures |Meaning(text, params)| == Tokens(text)
    decreases |text|
  {
    if text == "" {
    } else if AtPlaceholder(text) {
      TokensOfMeaning(text[PlaceholderLength(text)..], params);
    } else {
      TokensOfMeaning(text[1..], params);
    }
  }

  lemma {:induction false} TokensOfDigits(digits: string, rest: string)
    requires AllDigits(digits)
    ensures Tokens(digits + rest) == |digits| + Tokens(rest)
  {
    if digits == "" {
      assert digits + rest == rest;
    } else {
      assert (digits + rest)[1..] == digits[1..] + rest;
      TokensOfDigits(digits[1..], rest);
    }
  }

  /** Renumbering never changes where the tokens are. */
  lemma {:induction false} TokensOfShift(s: string, k: nat)
    ensures Tokens(Shift(s, k)) == Tokens(s)
    ensures (DigitRun(Shift(s, k)) == 0) == (DigitRun(s) == 0)
    decreases |s|
  {
    if s == "" {
    } else if AtPlaceholder(s) {
      var n := PlaceholderLength(s);
      TokensOfShift(s[n..], k);
      var m := Parse(s[1..n]) + k;
      var rest := Shift(s[n..], k);
      PlaceholderAppend(m, rest);
      assert (Mark(m) + rest)[1 + |Print(m)|..] == rest;
    } else {
      TokensOfShift(s[1..], k);
      var t := [s[0]] + Shift(s[1..], k);
      assert t[1..] == Shift(s[1..], k);
      assert AtPlaceholder(t) <==> AtPlaceholder(s);
    }
  }

  /** Where a placeholder reaches past `a`, it takes digits of `b`. */
  lemma PlaceholderAcross(a: string, b: string)
    requires a != "" && AtPlaceholder(a + b)
    requires PlaceholderLength(a + b) >= |a|
    ensures var j := PlaceholderLength(a + b) - |a|;
            && j <= |b|
            && 1 + Tokens(b) == Tokens(a + b) + j
  {
    var n := PlaceholderLength(a + b);
    var j := n - |a|;
    assert (a + b)[n..] == b[j..];
    assert b == b[..j] + b[j..];
    forall i | 0 <= i < j ensures IsDigit(b[i]) {
      assert b[i] == (a + b)[1..n][|a| - 1 + i];
    }
    TokensOfDigits(b[..j], b[j..]);
  }

  /** Where a placeholder ends within `a`, it does not depend on `b`. */
  lemma PlaceholderWithin(a: string, b: string)
    requires AtPlaceholder(a + b) && PlaceholderLength(a + b) < |a|
    ensures AtPlaceholder(a) && PlaceholderLength(a) == PlaceholderLength(a + b)
    ensures (a + b)[PlaceholderLength(a)..] == a[PlaceholderLength(a)..] + b
  {
    var n := PlaceholderLength(a + b);
    assert a[1..n] == (a + b)[1..n];
    assert a[1..] == a[1..n] + a[n..];
    DigitRunAppend(a[1..n], a[n..]);
    assert IsDigit(a[1]) by { assert a[1] == a[1..n][0]; }
  }

  /** Concatenation can merge tokens but never creates any. */
  lemma {:induction false} TokensOfConcat(a: string, b: string)
    ensures Tokens(a + b) <= Tokens(a) + Tokens(b)
    decreases |a|
  {
    if a == "" {
      assert a + b == b;
    } else if AtPlaceholder(a + b) {
      if PlaceholderLength(a + b) < |a| {
        PlaceholderWithin(a, b);
        TokensOfConcat(a[PlaceholderLength(a)..], b);
      } else {
        PlaceholderAcross(a, b);
      }
    } else {
      assert (a + b)[1..] == a[1..] + b;
      TokensOfConcat(a[1..], b);
    }
  }

  lemma {:induction false} TokensAtMostLength(t: string)
    ensures Tokens(t) <= |t|
    decreases |t|
  {
    if t == "" {
    } else if AtPlaceholder(t) {
      TokensAtMostLength(t[PlaceholderLength(t)..]);
    } else {
      TokensAtMostLength(t[1..]);
    }
  }

  /** A literal `$` that meets a digit is misread: the scan sees fewer cells than written. */
  lemma {:induction false} LiteralMisread(t: string, rest: string, i: nat)
    requires i < |t| && t[i] == '$' && AtPlaceholder(t[i..] + rest)
    ensures Tokens(t + rest) < |t| + Tokens(rest)
    decreases |t|
  {
    if AtPlaceholder(t + rest) {
      var n := PlaceholderLength(t + rest);
      if n < |t| {
        PlaceholderWithin(t, rest);
        TokensOfConcat(t[n..], rest);
        TokensAtMostLength(t[n..]);
      } else {
        PlaceholderAcross(t, rest);
      }
    } else {
      assert t[0..] + rest == t + rest;
      assert (t + rest)[1..] == t[1..] + rest;
      assert t[1..][i - 1..] == t[i..];
      LiteralMisread(t[1..], rest, i - 1);
    }
  }

  lemma {:induction false} CellsCount<P>(ps: seq<Piece<P>>, base: nat)
    ensures Tokens(Text(ps, base)) <= |Cells(ps)|
    ensures !Clean(ps) ==> Tokens(Text(ps, base)) < |Cells(ps)|
  {
    if ps != [] {
      match ps[0]
      case Lit(t) =>
        var rest := Text(ps[1..], base);
        CellsCount(ps[1..], base);
        TokensOfConcat(t, rest);
        TokensAtMostLength(t);
        if i :| 0 <= i < |t| && t[i] == '$' && DigitAfter(t, i, ps[1..]) {
          DigitAfterMeansPlaceholder(t, i, ps[1..], base);
          LiteralMisread(t, rest, i);
        }
      case Hole(_) =>
        var rest := Text(ps[1..], base + 1);
        CellsCount(ps[1..], base + 1);
        FirstCharacter(ps[1..], base + 1);
        PlaceholderAppend(base + 1, rest);
        PlaceholderAcross(Mark(base + 1), rest);
    }
  }

  /** A flat statement means what it is meant to mean exactly when it is clean. */
  lemma FlatMeaning<P>(ps: seq<Piece<P>>)
    ensures Meaning(Text(ps, 0), Params(ps)) == Cells(ps) <==> Clean(ps)
  {
    if Clean(ps) {
      CleanMeaning(ps, 0, Params(ps));
    } else {
      CellsCount(ps, 0);
      TokensOfMeaning(Text(ps, 0), Params(ps));
    }
  }

  // ---------- Sequences of flat statements ----------

  function Concat<P>(parts: seq<seq<Piece<P>>>): seq<Piece<P>> {
    if parts == [] then [] else Concat(parts[..|parts| - 1]) + parts[|parts| - 1]
  }

  lemma {:induction false} ParamsAppend<P>(a: seq<Piece<P>>, b: seq<Piece<P>>)
    ensures Params(a + b) == Params(a) + Params(b)
  {
    if a == [] {
      assert a + b == b;
    } else {
      assert (a + b)[1..] == a[1..] + b;
      ParamsAppend(a[1..], b);
    }
  }

  lemma {:induction false} CellsAppend<P>(a: seq<Piece<P>>, b: seq<Piece<P>>)
    ensures Cells(a + b) == Cells(a) + Cells(b)
  {
    if a == [] {
      assert a + b == b;
    } else {
      assert (a + b)[1..] == a[1..] + b;
      CellsAppend(a[1..], b);
    }
  }

  lemma {:induction false} TextAppend<P>(a: seq<Piece<P>>, b: seq<Piece<P>>, base: nat)
    ensures Text(a + b, base) == Text(a, base) + Text(b, base + |Params(a)|)
  {
    if a == [] {
      assert a + b == b;
    } else {
      var next := if a[0].Hole? then base + 1 else base;
      TextFirst(a, base);
      TextFirst(a + b, base);
      AppendFirst(a, b);
      TextAppend(a[1..], b, next);
      PrependText(if a[0].Hole? then Mark(base + 1) else a[0].text, Text(a, base), Text(a + b, base),
                  Text(a[1..], next), Text(a[1..] + b, next), Text(b, base + |Params(a)|));
    }
  }

  lemma AppendFirst<P>(a: seq<Piece<P>>, b: seq<Piece<P>>)
    requires a != []
    ensures (a + b)[0] == a[0] && (a + b)[1..] == a[1..] + b
  {
  }

  lemma TextFirst<P>(ps: seq<Piece<P>>, base: nat)
    requires ps != []
    ensures Text(ps, base) == (if ps[0].Hole? then Mark(base + 1) else ps[0].text)
                              + Text(ps[1..], if ps[0].Hole? then base + 1 else base)
    ensures |Params(ps)| == |Params(ps[1..])| + if ps[0].Hole? then 1 else 0
  {
  }

  lemma PrependText(first: string, a: string, ab: string, rest: string, restB: string, b: string)
    requires a == first + rest && ab == first + restB && restB == rest + b
    ensures ab == a + b
  {
  }

  lemma {:induction false} StartsWithDigitAppend<P>(a: seq<Piece<P>>, b: seq<Piece<P>>)
    ensures StartsWithDigit(a) ==> StartsWithDigit(a + b)
  {
    if a != [] && a[0] == Lit("") {
      assert (a + b)[1..] == a[1..] + b;
      StartsWithDigitAppend(a[1..], b);
    }
  }

  /** The parts of a clean statement are clean. */
  lemma {:induction false} CleanParts<P>(a: seq<Piece<P>>, b: seq<Piece<P>>)
    requires Clean(a + b)
    ensures Clean(a) && Clean(b)
  {
    if a == [] {
      assert a + b == b;
    } else {
      assert (a + b)[1..] == a[1..] + b;
      CleanParts(a[1..], b);
      StartsWithDigitAppend(a[1..], b);
      if a[0].Lit? {
        var t := a[0].text;
        forall i | 0 <= i < |t| && t[i] == '$' ensures !DigitAfter(t, i, a[1..]) {
          assert !DigitAfter(t, i, (a + b)[1..]);
        }
      }
    }
  }

  // ---------- Assembling parts ----------

  /** What an item must look like to stand for the flat statement `ps`. */
  ghost predicate Stands<P>(item: Item<P>, ps: seq<Piece<P>>) {
    match item
    case Literal(t) => ps == [Lit(t)]
    case Argument(v) => ps == [Hole(v)]
    case Inline(f) => Clean(ps) && f == Render(ps)
  }

  lemma OnePiece<P>(p: Piece<P>, base: nat)
    ensures Text([p], base) == if p.Lit? then p.text else Mark(base + 1)
    ensures Params([p]) == if p.Lit? then [] else [p.value]
    ensures Cells([p]) == if p.Lit? then Chars(p.text) else [Bound(p.value)]
  {
    assert [p][1..] == [];
  }

  lemma AppendStands<P>(acc: Fragment<P>, item: Item<P>, ps: seq<Piece<P>>)
    requires Stands(item, ps)
    ensures Append(acc, item) == Fragment(acc.sql + Text(ps, |acc.params|), acc.params + Params(ps))
  {
    match item
    case Literal(t) => OnePiece<P>(Lit(t), |acc.params|);
    case Argument(v) => OnePiece(Hole(v), |acc.params|);
    case Inline(f) => ShiftText(ps, 0, |acc.params|);
  }

  lemma AppendRenders<P>(before: seq<Piece<P>>, item: Item<P>, last: seq<Piece<P>>)
    requires Stands(item, last)
    ensures Append(Render(before), item) == Render(before + last)
  {
    AppendStands(Render(before), item, last);
    ParamsAppend(before, last);
    TextAppend(before, last, 0);
  }

  /** The loops of `sql`, `fragment` and `join` splice faithful items into one flat statement. */
  lemma {:induction false} AssembleRenders<P>(items: seq<Item<P>>, parts: seq<seq<Piece<P>>>)
    requires |items| == |parts|
    requires forall i :: 0 <= i < |items| ==> Stands(items[i], parts[i])
    ensures Assemble(items) == Render(Concat(parts))
  {
    if items != [] {
      var n := |items| - 1;
      AssembleRenders(items[..n], parts[..n]);
      AppendRenders(Concat(parts[..n]), items[n], parts[n]);
    }
  }

  /** An item read as at most as many cells as it was written with, fewer when `lossy`. */
  ghost predicate Loses<P>(item: Item<P>, ps: seq<Piece<P>>, lossy: bool) {
    match item
    case Literal(t) => ps == [Lit(t)] && !lossy
    case Argument(v) => ps == [Hole(v)] && !lossy
    case Inline(f) => if lossy then Tokens(f.sql) < |Cells(ps)| else Tokens(f.sql) <= |Cells(ps)|
  }

  lemma AppendLoses<P>(acc: Fragment<P>, item: Item<P>, ps: seq<Piece<P>>, lossy: bool)
    requires Loses(item, ps, lossy)
    ensures Tokens(Append(acc, item).sql) <= Tokens(acc.sql) + |Cells(ps)|
    ensures lossy ==> Tokens(Append(acc, item).sql) < Tokens(acc.sql) + |Cells(ps)|
  {
    match item
    case Literal(t) =>
      OnePiece(ps[0], 0);
      TokensOfConcat(acc.sql, t);
      TokensAtMostLength(t);
    case Argument(v) =>
      OnePiece(ps[0], 0);
      var hole := Mark(|acc.params| + 1);
      TokensOfConcat(acc.sql, hole);
      PlaceholderAppend(|acc.params| + 1, "");
      assert hole + "" == hole;
    case Inline(f) =>
      TokensOfConcat(acc.sql, Shift(f.sql, |acc.params|));
      TokensOfShift(f.sql, |acc.params|);
  }

  /** What one item was misread by is never made up for elsewhere. */
  lemma {:induction false} AssembleLoses<P>(items: seq<Item<P>>, parts: seq<seq<Piece<P>>>, lossy: seq<bool>)
    requires |items| == |parts| == |lossy|
    requires forall i :: 0 <= i < |items| ==> Loses(items[i], parts[i], lossy[i])
    ensures Tokens(Assemble(items).sql) <= |Cells(Concat(parts))|
    ensures true in lossy ==> Tokens(Assemble(items).sql) < |Cells(Concat(parts))|
  {
    if items != [] {
      var n := |items| - 1;
      AssembleLoses(items[..n], parts[..n], lossy[..n]);
      assert lossy == lossy[..n] + [lossy[n]];
      CellsAppend(Concat(parts[..n]), parts[n]);
      AppendLoses(Assemble(items[..n]), items[n], parts[n], lossy[n]);
    }
  }

  // ---------- Nested expressions ----------

  /** A statement as the program writes it: templates and joins nested to any depth. */
  datatype Expr<P> =
    | Template(strings: seq<string>, args: seq<Arg<P>>)
    | Join(parts: seq<Expr<P>>, separator: Expr<P>)

  datatype Arg<P> = Plain(value: P) | Sub(expr: Expr<P>)

  /** What the tags compute, innermost expressions first. */
  function Eval<P>(e: Expr<P>): Fragment<P>
    decreases e, 1
  {
    match e
    case Template(strings, args) =>
      Assemble(Interleave(strings, seq(|args|, i requires 0 <= i < |args| => EvalArg(args[i])), |strings|))
    case Join(parts, separator) =>
      var fragments := seq(|parts|, i requires 0 <= i < |parts| => Inline(Eval(parts[i])));
      Assemble(Intersperse(fragments, Inline(Eval(separator)), |parts|))
  }

  function EvalArg<P>(a: Arg<P>): Item<P>
    decreases a, 0
  {
    match a
    case Plain(v) => Argument(v)
    case Sub(e) => Inline(Eval(e))
  }

  /** One flat statement with every nested literal and value spliced in where it is used. */
  function Flatten<P>(e: Expr<P>): seq<Piece<P>>
    decreases e, 1
  {
    match e
    case Template(strings, args) =>
      Concat(SpliceTemplate(strings, seq(|args|, i requires 0 <= i < |args| => FlattenArg(args[i])), |strings|))
    case Join(parts, separator) =>
      Concat(SpliceJoin(seq(|parts|, i requires 0 <= i < |parts| => Flatten(parts[i])), Flatten(separator), |parts|))
  }

  function FlattenArg<P>(a: Arg<P>): seq<Piece<P>>
    decreases a, 0
  {
    match a
    case Plain(v) => [Hole(v)]
    case Sub(e) => Flatten(e)
  }

  function SpliceTemplate<P>(strings: seq<string>, values: seq<seq<Piece<P>>>, n: nat): seq<seq<Piece<P>>>
    requires n <= |strings|
  {
    if n == 0 then []
    else SpliceTemplate(strings, values, n - 1) + [[Lit(strings[n - 1])]]
         + if n - 1 < |values| then [values[n - 1]] else []
  }

  function SpliceJoin<P>(parts: seq<seq<Piece<P>>>, separator: seq<Piece<P>>, n: nat): seq<seq<Piece<P>>>
    requires n <= |parts|
  {
    if n == 0 then []
    else SpliceJoin(parts, separator, n - 1) + [parts[n - 1]]
         + if n < |parts| then [separator] else []
  }

  // ---------- The composition theorem ----------

  /** `f` is the rendering of a clean `ps`, and is read as too few cells when `ps` is not clean. */
  ghost predicate FaithfulFragment<P>(f: Fragment<P>, ps: seq<Piece<P>>) {
    if Clean(ps) then f == Render(ps) else Tokens(f.sql) < |Cells(ps)|
  }

  ghost predicate Faithful<P>(item: Item<P>, ps: seq<Piece<P>>) {
    match item
    case Literal(t) => ps == [Lit(t)]
    case Argument(v) => ps == [Hole(v)]
    case Inline(f) => FaithfulFragment(f, ps)
  }

  ghost predicate AllFaithful<P>(items: seq<Item<P>>, parts: seq<seq<Piece<P>>>) {
    |items| == |parts| && forall i :: 0 <= i < |items| ==> Faithful(items[i], parts[i])
  }

  lemma {:induction false} CleanConcat<P>(parts: seq<seq<Piece<P>>>, i: nat)
    requires Clean(Concat(parts)) && i < |parts|
    ensures Clean(parts[i])
  {
    var n := |parts| - 1;
    CleanParts(Concat(parts[..n]), parts[n]);
    if i < n {
      CleanConcat(parts[..n], i);
    }
  }

  lemma AssembleFaithful<P>(items: seq<Item<P>>, parts: seq<seq<Piece<P>>>)
    requires AllFaithful(items, parts)
    ensures FaithfulFragment(Assemble(items), Concat(parts))
  {
    if i :| 0 <= i < |items| && items[i].Inline? && !Clean(parts[i]) {
      var lossy := seq(|items|, k requires 0 <= k < |items| => items[k].Inline? && !Clean(parts[k]));
      forall k | 0 <= k < |items| ensures Loses(items[k], parts[k], lossy[k]) {
        CellsCount(parts[k], 0);
      }
      assert lossy[i];
      AssembleLoses(items, parts, lossy);
      if Clean(Concat(parts)) {
        CleanConcat(parts, i);
      }
    } else {
      AssembleRenders(items, parts);
      CellsCount(Concat(parts), 0);
    }
  }

  lemma {:induction false} InterleaveFaithful<P>(
      strings: seq<string>, values: seq<Item<P>>, parts: seq<seq<Piece<P>>>, n: nat)
    requires n <= |strings| && AllFaithful(values, parts)
    ensures AllFaithful(Interleave(strings, values, n), SpliceTemplate(strings, parts, n))
  {
    if n > 0 {
      InterleaveFaithful(strings, values, parts, n - 1);
    }
  }

  lemma {:induction false} IntersperseFaithful<P>(items: seq<Item<P>>, parts: seq<seq<Piece<P>>>,
                                                  separator: Item<P>, between: seq<Piece<P>>, n: nat)
    requires n <= |items| && AllFaithful(items, parts) && Faithful(separator, between)
    ensures AllFaithful(Intersperse(items, separator, n), SpliceJoin(parts, between, n))
  {
    if n > 0 {
      IntersperseFaithful(items, parts, separator, between, n - 1);
    }
  }

  lemma TemplateFaithful<P>(strings: seq<string>, values: seq<Value<P>>)
    ensures forall parts :: AllFaithful(Items(values), parts)
              ==> FaithfulFragment(Assemble(Interleave(strings, Items(values), |strings|)),
                                   Concat(SpliceTemplate(strings, parts, |strings|)))
  {
    forall parts | AllFaithful(Items(values), parts)
      ensures FaithfulFragment(Assemble(Interleave(strings, Items(values), |strings|)),
                               Concat(SpliceTemplate(strings, parts, |strings|)))
    {
      InterleaveFaithful(strings, Items(values), parts, |strings|);
      AssembleFaithful(Interleave(strings, Items(values), |strings|), SpliceTemplate(strings, parts, |strings|));
    }
  }

  /** `sql.fragment`, and the loop of `sql` itself. */
  method BuildFragment<P>(strings: seq<string>, values: seq<Value<P>>) returns (f: Fragment<P>)
    ensures f == Assemble(Interleave(strings, Items(values), |strings|))
    ensures forall parts :: AllFaithful(Items(values), parts)
              ==> FaithfulFragment(f, Concat(SpliceTemplate(strings, parts, |strings|)))
  {
    var params: seq<P> := [];
    var sqlStr := "";
    for i := 0 to |strings|
      invariant sqlStr == Assemble(Interleave(strings, Items(values), i)).sql
      invariant params == Assemble(Interleave(strings, Items(values), i)).params
    {
      InterleaveStep(strings, values, i);
      sqlStr := sqlStr + strings[i];
      if i < |values| {
        match values[i] {
          case Nested(fragment) =>
            var offset := |params|;
            sqlStr := sqlStr + Shift(fragment.sql, offset);
            params := params + fragment.params;
          case Param(value) =>
            params := params + [value];
            sqlStr := sqlStr + Mark(|params|);
        }
      }
    }
    f := Fragment(sqlStr, params);
    TemplateFaithful(strings, values);
  }

  lemma JoinFaithful<P>(fragments: seq<Fragment<P>>, separator: Fragment<P>)
    ensures forall parts, between :: AllFaithful(Inlined(fragments), parts) && FaithfulFragment(separator, between)
              ==> FaithfulFragment(Assemble(Intersperse(Inlined(fragments), Inline(separator), |fragments|)),
                                   Concat(SpliceJoin(parts, between, |fragments|)))
  {
    forall parts, between | AllFaithful(Inlined(fragments), parts) && FaithfulFragment(separator, between)
      ensures FaithfulFragment(Assemble(Intersperse(Inlined(fragments), Inline(separator), |fragments|)),
                               Concat(SpliceJoin(parts, between, |fragments|)))
    {
      IntersperseFaithful(Inlined(fragments), parts, Inline(separator), between, |fragments|);
      AssembleFaithful(Intersperse(Inlined(fragments), Inline(separator), |fragments|),
                       SpliceJoin(parts, between, |fragments|));
    }
  }

  /** `sql.join`. */
  method JoinFragments<P>(fragments: seq<Fragment<P>>, separator: Fragment<P>) returns (f: Fragment<P>)
    ensures f == Assemble(Intersperse(Inlined(fragments), Inline(separator), |fragments|))
    ensures forall parts, between :: AllFaithful(Inlined(fragments), parts) && FaithfulFragment(separator, between)
              ==> FaithfulFragment(f, Concat(SpliceJoin(parts, between, |fragments|)))
  {
    if |fragments| == 0 {
      f := Fragment("", []);
      JoinFaithful(fragments, separator);
      return;
    }
    var params: seq<P> := [];
    var sqlStr := "";
    for i := 0 to |fragments|
      invariant Fragment(sqlStr, params) == Assemble(Intersperse(Inlined(fragments), Inline(separator), i))
    {
      IntersperseStep(Inlined(fragments), Inline(separator), i);
      var offset := |params|;
      sqlStr := sqlStr + Shift(fragments[i].sql, offset);
      params := params + fragments[i].params;
      if i < |fragments| - 1 {
        var sepOffset := |params|;
        sqlStr := sqlStr + Shift(separator.sql, sepOffset);
        params := params + separator.params;
      }
    }
    f := Fragment(sqlStr, params);
    JoinFaithful(fragments, separator);
  }

  lemma {:induction false} EvalFaithful<P>(e: Expr<P>)
    ensures FaithfulFragment(Eval(e), Flatten(e))
    decreases e
  {
    match e
    case Template(strings, args) =>
      var values := seq(|args|, i requires 0 <= i < |args| => EvalArg(args[i]));
      var parts := seq(|args|, i requires 0 <= i < |args| => FlattenArg(args[i]));
      forall i | 0 <= i < |args| ensures Faithful(values[i], parts[i]) {
        if args[i].Sub? {
          EvalFaithful(args[i].expr);
        }
      }
      InterleaveFaithful(strings, values, parts, |strings|);
      AssembleFaithful(Interleave(strings, values, |strings|), SpliceTemplate(strings, parts, |strings|));
    case Join(exprs, separator) =>
      var items := seq(|exprs|, i requires 0 <= i < |exprs| => Inline(Eval(exprs[i])));
      var parts := seq(|exprs|, i requires 0 <= i < |exprs| => Flatten(exprs[i]));
      forall i | 0 <= i < |exprs| ensures Faithful(items[i], parts[i]) {
        EvalFaithful(exprs[i]);
      }
      EvalFaithful(separator);
      IntersperseFaithful(items, parts, Inline(Eval(separator)), Flatten(separator), |exprs|);
      AssembleFaithful(Intersperse(items, Inline(Eval(separator)), |exprs|),
                       SpliceJoin(parts, Flatten(separator), |exprs|));
  }

  /**
   Nesting templates, fragments and joins to any depth gives the text and the
   parameters of one flat template with everything spliced in.
   */
  lemma CompositionIsSplicing<P>(e: Expr<P>)
    requires Clean(Flatten(e))
    ensures Eval(e) == Fragment(Text(Flatten(e), 0), Params(Flatten(e)))
  {
    EvalFaithful(e);
  }

  /**
   The composed statement means what was written exactly when, in the spliced
   statement, no hole and no literal `$` is directly followed by a digit.
   */
  lemma CompositionMeaning<P>(e: Expr<P>)
    ensures Meaning(Eval(e).sql, Eval(e).params) == Cells(Flatten(e)) <==> Clean(Flatten(e))
  {
    EvalFaithful(e);
    FlatMeaning(Flatten(e));
    TokensOfMeaning(Eval(e).sql, Eval(e).params);
  }

  // ---------- Placeholder numbering ----------

  /** The numbers of the placeholders of a text, left to right. */
  function Placeholders(text: string): seq<nat>
    decreases |text|
  {
    if text == "" then []
    else if AtPlaceholder(text) then
      var k := PlaceholderLength(text);
      [Parse(text[1..k])] + Placeholders(text[k..])
    else Placeholders(text[1..])
  }

  lemma {:induction false} PlaceholdersOfLiteral(t: string, rest: string)
    requires Harmless(t, rest)
    ensures Placeholders(t + rest) == Placeholders(rest)
  {
    if t == "" {
      assert t + rest == rest;
    } else {
      HarmlessTail(t, rest);
      PlaceholdersOfLiteral(t[1..], rest);
    }
  }

  function UpFrom(first: nat, count: nat): (r: seq<nat>)
    ensures |r| == count && forall i :: 0 <= i < count ==> r[i] == first + i
    decreases count
  {
    if count == 0 then [] else [first] + UpFrom(first + 1, count - 1)
  }

  lemma {:induction false} TextPlaceholders<P>(ps: seq<Piece<P>>, base: nat)
    requires Clean(ps)
    ensures Placeholders(Text(ps, base)) == UpFrom(base + 1, |Params(ps)|)
  {
    if ps != [] {
      match ps[0]
      case Lit(t) =>
        TextPlaceholders(ps[1..], base);
        assert Params(ps) == Params(ps[1..]);
        assert ps == [Lit(t)] + ps[1..];
        CleanLiteral(t, ps[1..], base);
        PlaceholdersOfLiteral(t, Text(ps[1..], base));
      case Hole(v) =>
        TextPlaceholders(ps[1..], base + 1);
        FirstCharacter(ps[1..], base + 1);
        PlaceholdersOfHole(base + 1, Text(ps[1..], base + 1));
    }
  }

  lemma PlaceholdersOfHole(n: nat, rest: string)
    requires DigitRun(rest) == 0
    ensures Placeholders(Mark(n) + rest) == [n] + Placeholders(rest)
  {
    var s := Mark(n) + rest;
    PlaceholderAppend(n, rest);
    assert s[1..1 + |Print(n)|] == Print(n);
    assert s[1 + |Print(n)|..] == rest;
    ParsePrint(n);
  }

  /** At any nesting depth the placeholders read `$1`, `$2`, ..., one for each parameter. */
  lemma PlaceholdersInOrder<P>(e: Expr<P>)
    requires Clean(Flatten(e))
    ensures |Placeholders(Eval(e).sql)| == |Eval(e).params|
    ensures forall i :: 0 <= i < |Eval(e).params| ==> Placeholders(Eval(e).sql)[i] == i + 1
  {
    CompositionIsSplicing(e);
    TextPlaceholders(Flatten(e), 0);
  }
}
