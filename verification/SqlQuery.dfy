/** The `sql` tag from end to end: compose, trim, inject the tenant's filters. */
module SqlQuery {
  import opened SqlText
  import opened SqlFilters
  import opened SqlTemplate
  import opened SqlSelects

  datatype Query<P> = Query(text: string, params: seq<P>, tenantId: string)

  lemma {:induction false} TrimStartKeepsPlaceholders(s: string)
    ensures Placeholders(TrimStart(s)) == Placeholders(s)
  {
    if s != "" && IsSpace(s[0]) {
      TrimStartKeepsPlaceholders(s[1..]);
    }
  }

  lemma {:induction false} TrimEndKeepsPlaceholders(s: string)
    ensures Placeholders(TrimEnd(s)) == Placeholders(s)
  {
    if s != "" && IsSpace(s[|s| - 1]) {
      var front, last := s[..|s| - 1], s[|s| - 1..];
      TrimEndKeepsPlaceholders(front);
      PlaceholdersSplit(front, last);
      assert last[1..] == "" && front + last == s;
    }
  }

  predicate InOrder(numbers: seq<nat>, count: nat) {
    |numbers| == count && forall i :: 0 <= i < count ==> numbers[i] == i + 1
  }

  lemma RewriteKeepsPlaceholders(text: string, tenantId: string)
    requires Insertable(Trim(text), tenantId)
    ensures Placeholders(InjectFilters(Trim(text), tenantId)) == Placeholders(text)
  {
    InjectKeepsPlaceholders(Trim(text), tenantId);
    TrimStartKeepsPlaceholders(text);
    TrimEndKeepsPlaceholders(TrimStart(text));
  }

  /**
   Composed to any depth, trimmed and filtered, a query still asks for its
   parameters as `$1`, `$2`, ... from left to right, each once.
   */
  lemma QueryBindsInOrder<P>(e: Expr<P>, tenantId: string)
    requires Clean(Flatten(e)) && Insertable(Trim(Eval(e).sql), tenantId)
    ensures InOrder(Placeholders(InjectFilters(Trim(Eval(e).sql), tenantId)), |Params(Flatten(e))|)
    ensures Eval(e).params == Params(Flatten(e))
  {
    PlaceholdersInOrder(e);
    CompositionIsSplicing(e);
    RewriteKeepsPlaceholders(Eval(e).sql, tenantId);
  }

  lemma FaithfulInOrder<P>(f: Fragment<P>, ps: seq<Piece<P>>)
    requires FaithfulFragment(f, ps) && Clean(ps)
    ensures f.params == Params(ps) && InOrder(Placeholders(f.sql), |f.params|)
  {
    TextPlaceholders(ps, 0);
  }

  /** What the template's pieces say, its interpolated fragments spliced in. */
  function Spliced<P>(strings: seq<string>, parts: seq<seq<Piece<P>>>): seq<Piece<P>> {
    Concat(SpliceTemplate(strings, parts, |strings|))
  }

  /** The query of a spliced statement; after its white space a SELECT stays in front and asks for the tenant. */
  ghost predicate Answers<P>(q: Query<P>, ps: seq<Piece<P>>, tenantId: string) {
    && q.params == Params(ps)
    && q.text == InjectFilters(Trim(Text(ps, 0)), tenantId)
    && (forall n: nat :: SelectAt(Text(ps, 0), n) ==>
          Text(ps, 0)[n..n + 6] <= q.text && Includes(q.text, "org_id"))
    && (Insertable(Trim(Text(ps, 0)), tenantId) ==> InOrder(Placeholders(q.text), |q.params|))
  }

  /** The tag itself; the tenant comes from the request context. */
  method BuildQuery<P>(strings: seq<string>, values: seq<Value<P>>, tenantId: string) returns (q: Query<P>)
    ensures q.tenantId == tenantId
    ensures forall parts :: AllFaithful(Items(values), parts) && Clean(Spliced(strings, parts))
              ==> Answers(q, Spliced(strings, parts), tenantId)
  {
    var f := BuildFragment(strings, values);
    q := Query(InjectFilters(Trim(f.sql), tenantId), f.params, tenantId);
    forall parts | AllFaithful(Items(values), parts) && Clean(Spliced(strings, parts))
      ensures Answers(q, Spliced(strings, parts), tenantId)
    {
      FaithfulInOrder(f, Spliced(strings, parts));
      forall n: nat | SelectAt(f.sql, n)
        ensures f.sql[n..n + 6] <= q.text && Includes(q.text, "org_id")
      {
        QueryIsFiltered(f.sql, n, tenantId);
      }
      if Insertable(Trim(f.sql), tenantId) {
        RewriteKeepsPlaceholders(f.sql, tenantId);
      }
    }
  }
}
