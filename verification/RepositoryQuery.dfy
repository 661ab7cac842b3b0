/** From a filter builder to the query a repository runs: adapting the filter, and
    keeping soft-deleted documents out. */
module RepositoryQuery {
  import opened Wrappers
  import opened Lbq
  import opened Mongo
  import opened WhereCompiler
  import opened CompilerShape
  import opened CompilerAcceptance
  import opened CompilerCorrectness
  import opened CompilerSafety
  import opened Erasure
  import opened WhereBuilders
  import opened FilterBuilders
  import opened Projections
  import UpdateDocument

  const INVALID_WHERE_PARAMETER := "INVALID_WHERE_PARAMETER"

  datatype MongoFilter = MongoFilter(
    where: Query, limit: Option<nat>, skip: Option<nat>, sort: seq<(string, int)>, projection: Option<Projection>)

  datatype Adapted = Panics | Refuses | Adapts(filter: MongoFilter)

  function SortOf(order: seq<Order>): seq<(string, int)> {
    seq(|order|, i requires 0 <= i < |order| => (order[i].field, if order[i].direction == "DESC" then -1 else 1))
  }

  function NonZero(n: nat): Option<nat> { if n != 0 then Some(n) else None }

  /** How adapting ends: a where that loses all of its conditions is refused. */
  ghost predicate AdaptsTo(r: Adapted, f: FilterRef, env: Env) {
    match r
    case Panics => StatusOf(f.where, "", env) == Crashes
    case Refuses => StatusOf(f.where, "", env) == Rejects || (StatusOf(f.where, "", env) == Empty && f.where.m != map[])
    case Adapts(m) =>
      && Succeeds(f.where, "", env) && IsQuery(m.where, f.where, "", env)
      && (f.where.m != map[] ==> m.where.m != map[])
      && m.limit == NonZero(f.limit) && m.skip == NonZero(f.skip)
  }

  method BuildSort(order: seq<Order>) returns (sort: seq<(string, int)>)
    ensures sort == SortOf(order)
  {
    sort := [];
    for i := 0 to |order|
      invariant sort == SortOf(order)[..i]
    {
      sort := sort + [(order[i].field, if order[i].direction == "DESC" then -1 else 1)];
    }
  }

  method AdaptLoopbackFilter(f: FilterRef, env: Env) returns (r: Adapted)
    ensures AdaptsTo(r, f, env)
    ensures r.Adapts? ==> r.filter.projection == Projected(Entries(f.fields), env)
    ensures r.Adapts? ==> r.filter.sort == SortOf(f.order.Content())
  {
    var parsed := BuildWhere(f.where, "", env);
    if parsed.Crash? {
      return Panics;
    }
    if parsed.Fail? {
      return Refuses;
    }
    if |parsed.query.m| == 0 && |f.where.m| != 0 {
      return Refuses;
    }
    var sort := BuildSort(f.order.Content());
    if sort == [] && f.order.Content() != [] {
      return Refuses;
    }
    var projection := BuildProjection(if f.fields == null then map[] else f.fields.m, env);
    r := Adapts(MongoFilter(parsed.query, NonZero(f.limit), NonZero(f.skip), sort, projection));
  }

  // ----- soft deletion -----

  const DELETED_NULL := Query(map[Stored("deleted") := Doc(Query(map[OpType := Lit(Int(10))]))])

  function SoftDeleteQuery(q: Query): Query { Query(map[OpAnd := List([q, DELETED_NULL])]) }

  function FixQuery(q: Query, o: UpdateDocument.Options): Query {
    if o.deleted then SoftDeleteQuery(q) else q
  }

  /** A document with an explicit null `deleted`. */
  predicate Alive(d: Document) { Lookup(d, "deleted") == Some(Null) }

  lemma DeletedNullMeans(d: Document, env: Env)
    ensures Matches(DELETED_NULL, d, env) <==> Alive(d)
  {
    var ops := Query(map[OpType := Lit(Int(10))]);
    assert MatchesOps(ops, Lookup(d, "deleted"), env) <==>
        MatchesOp(OpType, ops.m[OpType], Null, Lookup(d, "deleted"), env);
    assert DELETED_NULL.m.Keys == {Stored("deleted")} && DELETED_NULL.m[Stored("deleted")] == Doc(ops);
    assert Matches(DELETED_NULL, d, env) <==> MatchesEntry(Stored("deleted"), Doc(ops), d, env);
  }

  /** The fixed query asks for what the query asks for, among the living documents only. */
  lemma FixedQueryMeans(q: Query, o: UpdateDocument.Options, d: Document, env: Env)
    ensures Matches(FixQuery(q, o), d, env) <==> Matches(q, d, env) && (o.deleted ==> Alive(d))
  {
    if o.deleted {
      DeletedNullMeans(d, env);
      var fixed := SoftDeleteQuery(q);
      var qs := [q, DELETED_NULL];
      assert AllMatch(qs, d, env) <==> Matches(q, d, env) && Matches(DELETED_NULL, d, env) by {
        assert qs[0] == q && qs[1] == DELETED_NULL;
      }
      assert Matches(fixed, d, env) <==> MatchesEntry(OpAnd, fixed.m[OpAnd], d, env);
    }
  }

  lemma DeletedNullIsAccepted()
    ensures Accepted(DELETED_NULL)
  {
    var ops := DELETED_NULL.m[Stored("deleted")].q;
    assert ops.m.Keys == {OpType} && AcceptedOp(OpType, ops.m[OpType]);
    assert AcceptedOps(ops);
    assert "deleted"[0] == 'd' && "$"[0] == '$';
    assert forall k | k in DELETED_NULL.m :: k == Stored("deleted");
  }

  /** The server accepts the fixed query exactly when it accepts the query. */
  lemma FixedQueryAccepted(q: Query, o: UpdateDocument.Options)
    ensures Accepted(FixQuery(q, o)) <==> Accepted(q)
  {
    if o.deleted {
      DeletedNullIsAccepted();
      var qs := [q, DELETED_NULL];
      assert AllAccepted(qs) <==> Accepted(q) by {
        assert qs[0] == q && qs[1] == DELETED_NULL;
      }
      var fixed := SoftDeleteQuery(q);
      assert fixed.m.Keys == {OpAnd} && fixed.m[OpAnd] == List(qs);
      assert Accepted(fixed) <==> AcceptedEntry(OpAnd, fixed.m[OpAnd]);
    }
  }

  // ----- the query of a builder -----

  datatype BuiltQuery = QueryPanics | QueryRefused | QueryReady(query: Query, filter: MongoFilter)

  ghost predicate IsBuiltQuery(r: BuiltQuery, b: BuildResult, o: UpdateDocument.Options, env: Env) {
    match r
    case QueryPanics => b.Filtered? && AdaptsTo(Panics, b.f, env)
    case QueryRefused => b.Refused? || AdaptsTo(Refuses, b.f, env)
    case QueryReady(query, filter) =>
      b.Filtered? && AdaptsTo(Adapts(filter), b.f, env) && query == FixQuery(filter.where, o)
  }

  method BuildQuery(builder: FilterBuilder, o: UpdateDocument.Options, env: Env) returns (r: BuiltQuery)
    ensures IsBuiltQuery(r, builder.BuildOutcome(), o, env)
    ensures r.QueryReady? ==> r.filter.projection == Projected(Entries(builder.fields), env)
    ensures r.QueryReady? ==> r.filter.sort == SortOf(builder.order.Content())
  {
    var built := builder.Build();
    if built.Refused? {
      return QueryRefused;
    }
    var adapted := AdaptLoopbackFilter(built.f, env);
    match adapted
    case Panics => r := QueryPanics;
    case Refuses => r := QueryRefused;
    case Adapts(filter) => r := QueryReady(FixQuery(filter.where, o), filter);
  }

  // ----- what a repository query means -----

  /** Conditions that stay well-scoped when they are put together. */
  ghost predicate Conjoinable(conditions: seq<Where>, env: Env) {
    AllWellScoped(conditions, env) && (|conditions| > 1 ==> SomeFilled(conditions))
  }

  lemma ConjunctionWellScoped(conditions: seq<Where>, env: Env)
    requires Conjoinable(conditions, env)
    ensures WellScoped(Conjunction(conditions), env)
  {
    if |conditions| > 1 {
      var w := Conjunction(conditions);
      AllWellScopedIs(conditions, env);
      assert ShapedEntry(And, w.m[And], env) && PlainEntry(And, w.m[And], env);
    }
  }

  /** For well-scoped conditions a builder's query is always built, and it matches a
      document iff every condition holds of it and it is not soft-deleted. */
  lemma BuiltQueryMeans(r: BuiltQuery, c: Contents, b: BuildResult, o: UpdateDocument.Options, env: Env)
    requires Conjoinable(c.where, env) && b.Filtered? && b.f.where == Conjunction(c.where)
    requires IsBuiltQuery(r, b, o, env)
    ensures r.QueryReady? && Accepted(r.query)
    ensures forall d, view :: Shows(view, d, env) ==>
              (Matches(r.query, d, env) <==> AllHold(c.where, view, env) && (o.deleted ==> Alive(d)))
  {
    var w := Conjunction(c.where);
    ConjunctionWellScoped(c.where, env);
    ShapedEnds(w, "", env);
    ObjectAccepted(r.filter.where, w, "", env);
    PlainIsTaken(w, env);
    FixedQueryAccepted(r.filter.where, o);
    forall d, view | Shows(view, d, env)
      ensures Matches(r.query, d, env) <==> AllHold(c.where, view, env) && (o.deleted ==> Alive(d))
    {
      FixedQueryMeans(r.filter.where, o, d, env);
      ObjectMeaning(r.filter.where, w, "", d, view, env);
      ConjunctionMeans(c.where, view, env);
    }
  }

  // ----- FindById -----

  const ID := "id"

  function ById(id: Value): Where { Where(map[Path(ID) := Atom(id)]) }

  lemma LexId()
    ensures Lex(ID) == Path(ID) && !Blank(ID)
  {
    assert ID[0] == 'i' && |ID| == 2;
  }

  method WhereIdIs(id: Value) returns (w: WhereBuilder)
    ensures fresh(w) && w.Value() == AddRaw(NEW, ById(id)) && w.conditions == [ById(id)]
  {
    w := new WhereBuilder();
    LexId();
    w.Eq(ID, Atom(id), false);
    assert Path(ID) in ById(id).m && w.Value() == AddRaw(NEW, ById(id));
  }

  /** The query FindById, UpdateById, DeleteById and Exists issue: the caller's own
      builder is cloned, and the id is one more condition. */
  method BuildQueryById(id: Value, builder: FilterBuilder?, o: UpdateDocument.Options, env: Env) returns (r: BuiltQuery)
    ensures id.Null? || (builder != null && builder.BuildOutcome().Refused?) ==> r.QueryRefused?
    ensures !id.Null? && (builder == null || builder.BuildOutcome().Filtered?) ==>
              exists b: BuildResult :: b.Filtered? && IsBuiltQuery(r, b, o, env)
                && b.f.where == Conjunction((if builder == null then [] else builder.where) + [ById(id)])
  {
    if id.Null? {
      return QueryRefused;
    }
    var filter: FilterBuilder;
    if builder == null {
      filter := new FilterBuilder();
    } else {
      filter := builder.Clone();
    }
    var newWhere := WhereIdIs(id);
    filter.WithWhere(newWhere);
    assert filter.where == (if builder == null then [] else builder.where) + [ById(id)];
    ghost var outcome := filter.BuildOutcome();
    assert outcome.Filtered? ==> outcome.f.where == Conjunction(filter.where);
    r := BuildQuery(filter, o, env);
  }

  lemma ByIdMeans(id: Value, view: View, env: Env)
    requires ID in env.fields
    ensures Holds(ById(id), view, env) <==> Equals(Lookup(view, ID), Typed(env.fields[ID], id, env))
  {
    var w := ById(id);
    assert Holds(w, view, env) <==> HoldsEntry(Path(ID), w.m[Path(ID)], view, env);
  }

  lemma AlsoById(id: Value, conditions: seq<Where>, view: View, env: Env)
    requires ID in env.fields
    ensures AllHold(conditions + [ById(id)], view, env) <==>
            Equals(Lookup(view, ID), Typed(env.fields[ID], id, env)) && AllHold(conditions, view, env)
  {
    AppendMember(conditions, ById(id), view, env);
    ByIdMeans(id, view, env);
  }

  lemma IdConjoins(id: Value, conditions: seq<Where>, env: Env)
    requires Declared(Path(ID), env) && Convert(env.fields[ID], Path(ID), id, env).Some?
    requires NilFree(id) && !DollarDoc(id) && AllWellScoped(conditions, env)
    ensures Conjoinable(conditions + [ById(id)], env)
  {
    var all := conditions + [ById(id)];
    assert WellScoped(ById(id), env) by {
      var w := ById(id);
      assert ShapedEntry(Path(ID), w.m[Path(ID)], env) && PlainEntry(Path(ID), w.m[Path(ID)], env);
    }
    assert all[|conditions|] == ById(id) && ById(id).m != map[];
    forall i | 0 <= i < |all| ensures WellScoped(all[i], env) {
      if i < |conditions| { assert all[i] == conditions[i]; }
    }
  }

  /** For a plain id that converts and well-scoped conditions of the caller, the query finds
      exactly the living documents with that id of which the conditions hold. */
  lemma FindByIdMeans(r: BuiltQuery, id: Value, conditions: seq<Where>, b: BuildResult, o: UpdateDocument.Options,
          env: Env)
    requires Declared(Path(ID), env) && Convert(env.fields[ID], Path(ID), id, env).Some?
    requires NilFree(id) && !DollarDoc(id)
    requires AllWellScoped(conditions, env)
    requires b.Filtered? && IsBuiltQuery(r, b, o, env) && b.f.where == Conjunction(conditions + [ById(id)])
    ensures r.QueryReady? && Accepted(r.query)
    ensures forall d, view :: Shows(view, d, env) ==>
              (Matches(r.query, d, env) <==>
               && Equals(Lookup(view, ID), Typed(env.fields[ID], id, env))
               && AllHold(conditions, view, env)
               && (o.deleted ==> Alive(d)))
  {
    var all := conditions + [ById(id)];
    IdConjoins(id, conditions, env);
    BuiltQueryMeans(r, NOTHING.(where := all), b, o, env);
    forall view: View
      ensures AllHold(all, view, env) <==>
              Equals(Lookup(view, ID), Typed(env.fields[ID], id, env)) && AllHold(conditions, view, env)
    {
      AlsoById(id, conditions, view, env);
    }
  }
}
