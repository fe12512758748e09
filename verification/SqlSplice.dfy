/** What a nest of templates, fragments and joins says, read from the front. */
module SqlSplice {
  import opened Digits
  import opened SqlTemplate

  lemma {:induction false} ConcatAppend<P>(a: seq<seq<Piece<P>>>, b: seq<seq<Piece<P>>>)
    ensures Concat(a + b) == Concat(a) + Concat(b)
  {
    if b == [] {
      assert a + b == a && Concat(a) + [] == Concat(a);
    } else {
      var n := |b| - 1;
      assert (a + b)[..|a| + n] == a + b[..n];
      ConcatAppend(a, b[..n]);
      AppendRegroup(Concat(a), Concat(b[..n]), b[n]);
    }
  }

  lemma AppendRegroup<T>(a: seq<T>, b: seq<T>, c: seq<T>)
    ensures a + b + c == a + (b + c)
  {
  }

  lemma RegroupFront<T>(front: seq<T>, a: seq<T>, b: seq<T>, c: seq<T>)
    ensures front + a + b + c == front + (a + b + c)
  {
  }

  lemma ConcatOne<P>(part: seq<Piece<P>>)
    ensures Concat([part]) == part
  {
    assert [part][..0] == [];
  }

  /** The first string and value of a template come first. */
  lemma {:induction false} SpliceFront<P>(
      s: string, strings: seq<string>, value: seq<Piece<P>>, values: seq<seq<Piece<P>>>, n: nat)
    requires n <= |strings|
    ensures SpliceTemplate([s] + strings, [value] + values, n + 1)
         == [[Lit(s)], value] + SpliceTemplate(strings, values, n)
  {
    if n == 0 {
      assert SpliceTemplate([s] + strings, [value] + values, 0) == [];
    } else {
      SpliceFront(s, strings, value, values, n - 1);
      RegroupFront([[Lit(s)], value], SpliceTemplate(strings, values, n - 1), [[Lit(strings[n - 1])]],
                   if n - 1 < |values| then [values[n - 1]] else []);
    }
  }

  lemma JoinStart<P>(parts: seq<seq<Piece<P>>>, separator: seq<Piece<P>>)
    requires |parts| > 1
    ensures SpliceJoin(parts, separator, 1) == [parts[0], separator]
  {
    assert SpliceJoin(parts, separator, 0) == [];
  }

  lemma {:induction false} JoinFront<P>(
      part: seq<Piece<P>>, parts: seq<seq<Piece<P>>>, separator: seq<Piece<P>>, n: nat)
    requires 0 < n <= |parts|
    ensures SpliceJoin([part] + parts, separator, n + 1) == [part, separator] + SpliceJoin(parts, separator, n)
  {
    var last := [parts[n - 1]];
    var more := if n < |parts| then [separator] else [];
    if n == 1 {
      JoinStart([part] + parts, separator);
      assert SpliceJoin(parts, separator, 0) == [];
    } else {
      JoinFront(part, parts, separator, n - 1);
    }
    assert ([part] + parts)[n] == parts[n - 1];
    RegroupFront([part, separator], SpliceJoin(parts, separator, n - 1), last, more);
  }

  function FlatArgs<P>(args: seq<Arg<P>>): seq<seq<Piece<P>>> {
    seq(|args|, i requires 0 <= i < |args| => FlattenArg(args[i]))
  }

  function FlatExprs<P>(exprs: seq<Expr<P>>): seq<seq<Piece<P>>> {
    seq(|exprs|, i requires 0 <= i < |exprs| => Flatten(exprs[i]))
  }

  lemma LastStringSays<P>(s: string)
    ensures Flatten<P>(Template([s], [])) == [Lit(s)]
  {
    assert SpliceTemplate([s], FlatArgs<P>([]), 0) == [];
    assert SpliceTemplate([s], FlatArgs<P>([]), 1) == [[Lit(s)]];
    ConcatOne<P>([Lit(s)]);
  }

  lemma FlattenTemplate<P>(strings: seq<string>, args: seq<Arg<P>>)
    ensures Flatten(Template(strings, args)) == Concat(SpliceTemplate(strings, FlatArgs(args), |strings|))
  {
  }

  lemma FlatArgsFront<P>(arg: Arg<P>, args: seq<Arg<P>>)
    ensures FlatArgs([arg] + args) == [FlattenArg(arg)] + FlatArgs(args)
  {
  }

  lemma ConcatTemplate<P>(s: string, strings: seq<string>, value: seq<Piece<P>>, values: seq<seq<Piece<P>>>)
    ensures Concat(SpliceTemplate([s] + strings, [value] + values, |strings| + 1))
         == [Lit(s)] + value + Concat(SpliceTemplate(strings, values, |strings|))
  {
    SpliceFront(s, strings, value, values, |strings|);
    ConcatAppend([[Lit(s)], value], SpliceTemplate(strings, values, |strings|));
    assert [[Lit(s)], value][..1] == [[Lit(s)]];
    ConcatOne<P>([Lit(s)]);
  }

  /** A template says its first string, its first value, and then the rest of the template. */
  lemma TemplateSays<P>(s: string, strings: seq<string>, arg: Arg<P>, args: seq<Arg<P>>)
    ensures Flatten(Template([s] + strings, [arg] + args))
         == [Lit(s)] + (match arg case Plain(v) => [Hole(v)] case Sub(e) => Flatten(e))
          + Flatten(Template(strings, args))
  {
    FlattenTemplate(strings, args);
    FlattenTemplate([s] + strings, [arg] + args);
    FlatArgsFront(arg, args);
    ConcatTemplate(s, strings, FlattenArg(arg), FlatArgs(args));
  }

  lemma ConcatJoin<P>(part: seq<Piece<P>>, parts: seq<seq<Piece<P>>>, separator: seq<Piece<P>>)
    requires parts != []
    ensures Concat(SpliceJoin([part] + parts, separator, |parts| + 1))
         == part + separator + Concat(SpliceJoin(parts, separator, |parts|))
  {
    JoinFront(part, parts, separator, |parts|);
    ConcatAppend([part, separator], SpliceJoin(parts, separator, |parts|));
    assert [part, separator][..1] == [part];
    ConcatOne(part);
  }

  lemma JoinOne<P>(part: seq<Piece<P>>, separator: seq<Piece<P>>)
    ensures Concat(SpliceJoin([part], separator, 1)) == part
  {
    assert SpliceJoin([part], separator, 0) == [];
    assert SpliceJoin([part], separator, 1) == [part];
    ConcatOne(part);
  }

  lemma FlattenJoin<P>(exprs: seq<Expr<P>>, separator: Expr<P>)
    ensures Flatten(Join(exprs, separator)) == Concat(SpliceJoin(FlatExprs(exprs), Flatten(separator), |exprs|))
  {
  }

  lemma ShortJoinSays<P>(first: Expr<P>, separator: Expr<P>)
    ensures Flatten(Join([], separator)) == []
    ensures Flatten(Join([first], separator)) == Flatten(first)
  {
    FlattenJoin([], separator);
    FlattenJoin([first], separator);
    assert FlatExprs([first]) == [Flatten(first)];
    JoinOne(Flatten(first), Flatten(separator));
  }

  /** A join says its parts in order, with the separator between neighbours. */
  lemma JoinSays<P>(first: Expr<P>, more: seq<Expr<P>>, separator: Expr<P>)
    requires more != []
    ensures Flatten(Join([first] + more, separator))
         == Flatten(first) + Flatten(separator) + Flatten(Join(more, separator))
  {
    FlattenJoin(more, separator);
    FlattenJoin([first] + more, separator);
    FlatExprsFront(first, more);
    ConcatJoin(Flatten(first), FlatExprs(more), Flatten(separator));
  }

  lemma FlatExprsFront<P>(first: Expr<P>, more: seq<Expr<P>>)
    ensures FlatExprs([first] + more) == [Flatten(first)] + FlatExprs(more)
  {
  }

  lemma InterleaveTwo<P>(a: string, b: string, c: string, x: Item<P>, y: Item<P>)
    ensures Interleave([a, b, c], [x, y], 3) == [Literal(a), x] + [Literal(b), y] + [Literal(c)]
  {
    assert Interleave([a, b, c], [x, y], 0) == [];
    assert Interleave([a, b, c], [x, y], 1) == [Literal(a), x];
    assert Interleave([a, b, c], [x, y], 2) == [Literal(a), x] + [Literal(b), y];
  }

  /** Strings as they are, and the values numbered where they stand. */
  lemma TwoValues<P>(a: string, b: string, c: string, x: P, y: P)
    ensures Eval(Template([a, b, c], [Plain(x), Plain(y)])) == Fragment(a + "$1" + b + "$2" + c, [x, y])
  {
    var items := [Argument(x), Argument(y)];
    assert seq(2, i requires 0 <= i < 2 => EvalArg([Plain(x), Plain(y)][i])) == items;
    InterleaveTwo(a, b, c, Argument(x), Argument(y));
    AssembleFive(a, b, c, x, y);
  }

  lemma AssembleFive<P>(a: string, b: string, c: string, x: P, y: P)
    ensures Assemble([Literal(a), Argument(x)] + [Literal(b), Argument(y)] + [Literal(c)])
         == Fragment(a + "$1" + b + "$2" + c, [x, y])
  {
    var one := [Literal(a), Argument(x)];
    assert Print(1) == "1" && Print(2) == "2";
    AssembleTwo([], a, x);
    assert [] + one == one;
    AssembleTwo(one, b, y);
    AssembleStep(one + [Literal(b), Argument(y)], Literal(c));
    assert "" + a == a && [] + [x] == [x] && [x] + [y] == [x, y];
  }

  lemma AssembleTwo<P>(items: seq<Item<P>>, text: string, value: P)
    ensures var f := Assemble(items);
            Assemble(items + [Literal(text), Argument(value)])
            == Fragment(f.sql + text + Mark(|f.params| + 1), f.params + [value])
  {
    AssembleStep(items, Literal(text));
    AssembleStep(items + [Literal(text)], Argument(value));
    assert items + [Literal(text)] + [Argument(value)] == items + [Literal(text), Argument(value)];
  }
}
