/** Operands that the compiler passes on and the server does not take, or takes for
    something else. */
module CompilerOperands {
  import opened Wrappers
  import opened Lbq
  import opened Mongo
  import opened FieldResolution
  import opened WhereCompiler
  import opened CompilerShape
  import opened CompilerAcceptance
  import opened CompilerCorrectness
  import opened CompilerSafety
  import opened QueryParser

  function Bound(k: Key, n: Node): Where { Where(map[k := n]) }

  function Field1(k: Key, j: Json): Json { JObj([Member(k, j)]) }

  lemma BoundIsShaped(k: Key, n: Node, env: Env)
    ensures Shaped(Bound(k, n), env) <==> ShapedEntry(k, n, env)
    ensures Taken(Bound(k, n), env) <==> TakenEntry(k, n, env)
    ensures Plain(Bound(k, n), env) <==> PlainEntry(k, n, env)
  {
    assert Bound(k, n).m[k] == n;
  }

  // ----- lists -----

  lemma EmptyListParses(k: Key, op: Key)
    requires (k.Path? || k.Options?) && (op.Inq? || op.Nin?)
    ensures ParseWhere(Field1(k, Field1(op, JArr([])))) == Some(Bound(k, Sub(Bound(op, Atom(NilSlice(true))))))
  {
    OneMember(op, JArr([]), Atom(NilSlice(true)));
    OneMember(k, Field1(op, JArr([])), Sub(Bound(op, Atom(NilSlice(true)))));
  }

  /** An empty list from JSON is a nil slice, and `{"field": {"inq": []}}` becomes a query the
      server rejects. */
  lemma EmptyListIsRefused(k: Key, op: Key, r: Outcome, env: Env)
    requires Declared(k, env) && (op.Inq? || op.Nin?)
    ensures var w := ParseWhere(Field1(k, Field1(op, JArr([]))));
            w.Some? && (Compiled(r, w.value, "", env) ==> r.Success? && r.warnings == [] && !Accepted(r.query))
  {
    EmptyListParses(k, op);
    var ops := Bound(op, Atom(NilSlice(true)));
    assert ops.m[op] == Atom(NilSlice(true)) && ShapedOps(ops, env.fields[Text(k)], env);
    assert !TakenOps(ops, env.fields[Text(k)]);
    NotTakenIsRefused(k, ops, r, env);
  }

  lemma NotTakenIsRefused(k: Key, ops: Where, r: Outcome, env: Env)
    requires Declared(k, env) && ShapedOps(ops, env.fields[Text(k)], env) && !TakenOps(ops, env.fields[Text(k)])
    ensures Compiled(r, Bound(k, Sub(ops)), "", env) ==> r.Success? && r.warnings == [] && !Accepted(r.query)
  {
    BoundIsShaped(k, Sub(ops), env);
    if Compiled(r, Bound(k, Sub(ops)), "", env) {
      AcceptedIffTaken(r, Bound(k, Sub(ops)), env);
    }
  }

  // ----- patterns -----

  /** `{"field": {"like": 5}}` becomes a query the server rejects. */
  lemma PatternMustBeString(k: Key, like: Key, n: real, r: Outcome, env: Env)
    requires Declared(k, env) && (like.Like? || like.NLike?)
    ensures ParseWhere(Field1(k, Field1(like, JNum(n)))).Some?
    ensures Compiled(r, ParseWhere(Field1(k, Field1(like, JNum(n)))).value, "", env) ==>
              r.Success? && r.warnings == [] && !Accepted(r.query)
  {
    var ops := Where(map[like := Atom(Num(n)), Options := Atom(Null)]);
    var ms := [Member(like, JNum(n))];
    GetByKey(ms, Like);
    GetByKey(ms, NLike);
    GetByKey(ms, Options);
    assert ms[0].key == like;
    assert ParseWhere(Field1(like, JNum(n))) == Some(ops);
    OneMember(k, Field1(like, JNum(n)), Sub(ops));
    assert ops.m[like] == Atom(Num(n)) && ShapedOps(ops, env.fields[Text(k)], env);
    assert !TakenOps(ops, env.fields[Text(k)]);
    NotTakenIsRefused(k, ops, r, env);
  }

  // ----- values bound to a field -----

  /** What a value bound to a declared field of no coerced type becomes. */
  lemma BoundValue(k: Key, v: Value, r: Outcome, env: Env)
    requires Declared(k, env) && !Coerced(env.fields[Text(k)]) && Compiled(r, Bound(k, Atom(v)), "", env)
    ensures r.Success? && r.query == Query(map[Stored(env.fields[Text(k)].bsonName) := Lit(v)])
  {
    var w := Bound(k, Atom(v));
    BoundIsShaped(k, Atom(v), env);
    AcceptedIffTaken(r, w, env);
    NotSpecial(w, env);
    ShapedEnds(w, "", env);
    DeclaredField(k, env);
    OneEntry(r.query, k, Atom(v), "", env);
    assert r.query.m.Keys == {Stored(env.fields[Text(k)].bsonName)};
  }

  lemma BoundMeaning(k: Key, v: Value, d: Document, view: View, env: Env)
    requires Declared(k, env) && !Coerced(env.fields[Text(k)]) && Shows(view, d, env)
    ensures var x := Lookup(d, env.fields[Text(k)].bsonName);
            && (Matches(Query(map[Stored(env.fields[Text(k)].bsonName) := Lit(v)]), d, env) <==>
              MatchesOperand(Wire(v), x, env))
            && (Holds(Bound(k, Atom(v)), view, env) <==> Equals(x, Meant(v)))
  {
    MatchesSingle(env.fields[Text(k)].bsonName, v, d, env);
    HoldsSingle(k, v, view, env);
  }

  lemma MatchesSingle(name: string, v: Value, d: Document, env: Env)
    ensures Matches(Query(map[Stored(name) := Lit(v)]), d, env) <==> MatchesOperand(Wire(v), Lookup(d, name), env)
  {
    var q := Query(map[Stored(name) := Lit(v)]);
    assert q.m.Keys == {Stored(name)} && q.m[Stored(name)] == Lit(v);
    assert MatchesEntry(Stored(name), q.m[Stored(name)], d, env) <==> MatchesOperand(Wire(v), Lookup(d, name), env);
  }

  lemma HoldsSingle(k: Key, v: Value, view: View, env: Env)
    requires Declared(k, env) && !Coerced(env.fields[Text(k)])
    ensures Holds(Bound(k, Atom(v)), view, env) <==> Equals(Lookup(view, Text(k)), Meant(v))
  {
    var w := Bound(k, Atom(v));
    assert w.m.Keys == {k} && w.m[k] == Atom(v);
    assert HoldsEntry(k, w.m[k], view, env) <==> Equals(Lookup(view, Text(k)), Meant(v));
  }

  /** A value that is no document of operators means what it says exactly when there is no nil
      slice in it: otherwise the document that holds what is meant is not found. */
  lemma ValueMeansItselfIff(k: Key, v: Value, r: Outcome, env: Env)
    requires Declared(k, env) && !Coerced(env.fields[Text(k)]) && !DollarDoc(v)
    requires Compiled(r, Bound(k, Atom(v)), "", env)
    ensures r.Success? && Accepted(r.query)
    ensures (forall d, view :: Shows(view, d, env) ==>
            (Matches(r.query, d, env) <==> Holds(Bound(k, Atom(v)), view, env)))
       <==> NilFree(v)
  {
    var w := Bound(k, Atom(v));
    BoundValue(k, v, r, env);
    BoundIsShaped(k, Atom(v), env);
    DollarStays(v);
    AcceptedIffTaken(r, w, env);
    if NilFree(v) {
      CompilerCorrect(r, w, env);
    } else {
      var d: Document := map[env.fields[Text(k)].bsonName := Meant(v)];
      ViewShows(d, env);
      BoundMeaning(k, v, d, ViewOf(d, env), env);
      WritesWhatIsMeant(v);
      MeantIsNotWritten(v);
    }
  }

  lemma MeantIsNotWritten(v: Value)
    requires !NilFree(v)
    ensures Same(Meant(v), Meant(v)) && !Same(Meant(v), Wire(v))
  {
    WritesWhatIsMeant(v);
  }

  /** In particular `{"field": []}` asks for null or nothing instead of an empty list. */
  lemma EmptyListMeansNull(k: Key, d: Document, view: View, r: Outcome, env: Env)
    requires Declared(k, env) && !Coerced(env.fields[Text(k)]) && Shows(view, d, env)
    requires Compiled(r, Bound(k, Atom(NilSlice(true))), "", env)
    ensures r.Success?
    ensures Matches(r.query, d, env) <==> Equals(Lookup(d, env.fields[Text(k)].bsonName), Null)
    ensures Holds(Bound(k, Atom(NilSlice(true))), view, env)
       <==> Lookup(d, env.fields[Text(k)].bsonName) == Some(Slice([], false))
  {
    BoundValue(k, NilSlice(true), r, env);
    BoundMeaning(k, NilSlice(true), d, view, env);
    NilIsNull(Lookup(d, env.fields[Text(k)].bsonName), env);
  }

  lemma NilIsNull(x: Option<Value>, env: Env)
    ensures MatchesOperand(Wire(NilSlice(true)), x, env) <==> Equals(x, Null)
    ensures Equals(x, Meant(NilSlice(true))) <==> x == Some(Slice([], false))
  {}

  /** A document with a dollar key is taken for operators: this one asks for everything else. */
  lemma DollarDocumentIsOperator(k: Key, v: Value, d: Document, r: Outcome, env: Env)
    requires Declared(k, env) && !Coerced(env.fields[Text(k)])
    requires Compiled(r, Bound(k, Atom(Subdocument(map["$ne" := v]))), "", env)
    ensures r.Success? && Accepted(r.query)
    ensures Matches(r.query, d, env) <==> !Equals(Lookup(d, env.fields[Text(k)].bsonName), Wire(v))
  {
    var doc := Subdocument(map["$ne" := v]);
    BoundValue(k, doc, r, env);
    MatchesSingle(env.fields[Text(k)].bsonName, doc, d, env);
    NotEqualSent(v);
    NotEqualDocument(Wire(doc), Wire(v), Lookup(d, env.fields[Text(k)].bsonName), env);
    BoundIsShaped(k, Atom(doc), env);
    AcceptedIffTaken(r, Bound(k, Atom(doc)), env);
  }

  lemma NotEqualSent(v: Value)
    ensures var sent := Wire(Subdocument(map["$ne" := v]));
            sent == Subdocument(map["$ne" := Wire(v)]) && DollarDoc(sent)
  {
    var sent := Wire(Subdocument(map["$ne" := v]));
    assert sent.m == map["$ne" := Wire(v)];
    assert "$" <= "$ne" && "$ne" in sent.m;
  }

  lemma NotEqualDocument(doc: Value, v: Value, x: Option<Value>, env: Env)
    requires doc == Subdocument(map["$ne" := v])
    ensures MatchesDoc(doc, x, env) <==> !Equals(x, v)
    ensures AcceptedDoc(doc)
  {
    assert OperatorNamed("$ne") == OpNe;
    assert doc.m.Keys == {"$ne"};
    assert MatchesDoc(doc, x, env) <==> MatchesNamed(OpNe, v, Null, x, env);
  }
}
