/** The compiled query means what the `where` tree says: for every well-scoped
    tree, every document and every order in which map keys are visited. */
module CompilerCorrectness {
  import opened Wrappers
  import opened Lbq
  import opened Mongo
  import opened FieldResolution
  import opened WhereCompiler
  import opened CompilerShape
  import opened CompilerAcceptance

  // ----- operands that reach the server as what they stand for -----

  /** The server takes every operand, and each is sent as what it stands for: no nil slice
      is in it, and it is no document of operators. */
  ghost predicate Plain(w: Where, env: Env)
    decreases w
  {
    forall k :: k in w.m ==> PlainEntry(k, w.m[k], env)
  }

  ghost predicate PlainEntry(k: Key, n: Node, env: Env)
    decreases n
  {
    match n
    case Atom(v) => NilFree(v) && !DollarDoc(v)
    case Sub(ops) => Declared(k, env) && PlainOps(ops, env.fields[Text(k)])
    case Group(ws) => AllPlain(ws, env)
  }

  predicate PlainOps(ops: Where, f: Field) {
    TakenOps(ops, f) && forall k <- ops.m.Keys :: ops.m[k].Atom? && NilFree(ops.m[k].v)
  }

  ghost predicate AllPlain(ws: seq<Where>, env: Env)
    decreases ws
  {
    forall i :: 0 <= i < |ws| ==> Plain(ws[i], env)
  }

  lemma {:induction false} PlainIsTaken(w: Where, env: Env)
    requires Plain(w, env)
    ensures Taken(w, env)
    decreases w
  {
    forall k | k in w.m ensures TakenEntry(k, w.m[k], env) {
      assert PlainEntry(k, w.m[k], env);
      match w.m[k]
      case Atom(v) => DollarStays(v);
      case Sub(_) =>
      case Group(ws) =>
        assert AllPlain(ws, env);
        forall i | 0 <= i < |ws| ensures Taken(ws[i], env) {
          assert Plain(ws[i], env);
          PlainIsTaken(ws[i], env);
        }
    }
  }

  ghost predicate WellScoped(w: Where, env: Env) { Shaped(w, env) && Plain(w, env) }

  ghost predicate AllWellScoped(ws: seq<Where>, env: Env) {
    forall i :: 0 <= i < |ws| ==> WellScoped(ws[i], env)
  }

  lemma AllWellScopedIs(ws: seq<Where>, env: Env)
    ensures AllWellScoped(ws, env) <==> AllShaped(ws, env) && AllPlain(ws, env)
  {
    if AllShaped(ws, env) && AllPlain(ws, env) {
      forall i | 0 <= i < |ws| ensures WellScoped(ws[i], env) {
        assert Shaped(ws[i], env) && Plain(ws[i], env);
      }
    }
    if AllWellScoped(ws, env) {
      forall i | 0 <= i < |ws| ensures Shaped(ws[i], env) && Plain(ws[i], env) {
        assert WellScoped(ws[i], env);
      }
    }
  }

  /** The view shows each declared field of the stored document under its JSON path. */
  ghost predicate Shows(view: View, d: Document, env: Env) {
    forall path :: path in env.fields ==> Lookup(view, path) == Lookup(d, env.fields[path].bsonName)
  }

  /** A stored document by JSON path. */
  function ViewOf(d: Document, env: Env): View {
    map path | path in env.fields && env.fields[path].bsonName in d :: d[env.fields[path].bsonName]
  }

  lemma ViewShows(d: Document, env: Env)
    ensures Shows(ViewOf(d, env), d, env)
  {}

  // ----- operands -----

  lemma ConvertedOperand(f: Field, k: Key, v: Value, env: Env)
    requires Convert(f, k, v, env).Some? && NilFree(v) && !k.Inq? && !k.Nin?
    ensures Wire(Convert(f, k, v, env).value) == Typed(f, v, env)
  {
    WritesWhatIsMeant(v);
  }

  lemma ConvertedList(f: Field, k: Key, v: Value, env: Env)
    requires Convert(f, k, v, env).Some? && NilFree(v) && (k.Inq? || k.Nin?) && TakenArgument(f, k, v)
    ensures Wire(Convert(f, k, v, env).value).Slice?
    ensures Wire(Convert(f, k, v, env).value).items == ElementsOf(f, v, env)
  {
    var c := Convert(f, k, v, env).value;
    WireList(c);
    forall i | 0 <= i < |v.items| ensures Wire(c.items[i]) == Typed(f, v.items[i], env) {
      WritesWhatIsMeant(v.items[i]);
    }
  }

  // ----- operator objects -----

  lemma OpMeaning(op: Key, v: Value, f: Field, x: Option<Value>, options: Value, env: Env)
    requires IsComparator(op) && Convert(f, op, v, env).Some? && TakenArgument(f, op, v) && NilFree(v)
    ensures MatchesOp(OperatorOf(op).value, Lit(Convert(f, op, v, env).value), options, x, env) <==>
            Test(op, f, v, x, env)
  {
    if op.Inq? || op.Nin? {
      ConvertedList(f, op, v, env);
    } else {
      ConvertedOperand(f, op, v, env);
    }
  }

  lemma ComparisonMeaning(q: Query, ops: Where, op: Key, path: string, f: Field, x: Option<Value>, env: Env)
    requires ShapedOps(ops, f, env) && PlainOps(ops, f) && !Special(ops) && Resolve(path, env.fields) == Some(f)
    requires IsQuery(q, ops, path, env) && op in ops.m
    ensures OperatorOf(op).Some? && OperatorOf(op).value in q.m
    ensures MatchesOp(OperatorOf(op).value, q.m[OperatorOf(op).value], Operand(q, OpOptions), x, env) <==>
            Test(op, f, ops.m[op].v, x, env)
  {
    ComparatorEnds(ops, op, path, f, env);
    OpEntry(q, ops, op, path, f, env);
    OpMeaning(op, ops.m[op].v, f, x, Operand(q, OpOptions), env);
  }

  lemma ComparisonsMeaning(q: Query, ops: Where, path: string, f: Field, x: Option<Value>, env: Env)
    requires ShapedOps(ops, f, env) && PlainOps(ops, f) && !Special(ops) && Resolve(path, env.fields) == Some(f)
    requires IsQuery(q, ops, path, env)
    ensures MatchesOps(q, x, env) <==> HoldsOps(ops, f, x, env)
  {
    if MatchesOps(q, x, env) {
      forall op | op in ops.m ensures Test(op, f, ops.m[op].v, x, env) {
        ComparisonMeaning(q, ops, op, path, f, x, env);
      }
    }
    if HoldsOps(ops, f, x, env) {
      forall name | name in q.m ensures MatchesOp(name, q.m[name], Operand(q, OpOptions), x, env) {
        var op := ComparisonSource(q, ops, name, path, f, env);
        ComparisonMeaning(q, ops, op, path, f, x, env);
        assert Test(op, f, ops.m[op].v, x, env);
      }
    }
  }

  lemma ExistsMeaning(q: Query, ops: Where, path: string, f: Field, x: Option<Value>, env: Env)
    requires ShapedOps(ops, f, env) && PlainOps(ops, f) && Exists in ops.m && Like !in ops.m && NLike !in ops.m
    requires IsQuery(q, ops, path, env)
    ensures MatchesOps(q, x, env) <==> HoldsOps(ops, f, x, env)
  {
    assert q.m == map[OpExists := Lit(ops.m[Exists].v)];
    assert MatchesOps(q, x, env) <==> MatchesOp(OpExists, q.m[OpExists], Null, x, env);
    assert HoldsOps(ops, f, x, env) <==> Test(Exists, f, ops.m[Exists].v, x, env);
  }

  lemma PatternHolds(ops: Where, k: Key, f: Field, x: Option<Value>, env: Env)
    requires (k.Like? || k.NLike?) && k in ops.m && ops.m.Keys <= {k, Options} && ops.m[k].Atom?
    ensures HoldsOps(ops, f, x, env) <==> (k.Like? <==> Likes(ops.m[k].v, OptionsOf(ops), x, env))
  {}

  lemma LikeMeaning(q: Query, ops: Where, path: string, f: Field, x: Option<Value>, env: Env)
    requires ShapedOps(ops, f, env) && PlainOps(ops, f) && Like in ops.m
    requires IsQuery(q, ops, path, env)
    ensures MatchesOps(q, x, env) <==> HoldsOps(ops, f, x, env)
  {
    RegexMeaning(q, ops.m[Like].v, OptionsOf(ops), x, env);
    PatternHolds(ops, Like, f, x, env);
  }

  lemma NLikeMeaning(q: Query, ops: Where, path: string, f: Field, x: Option<Value>, env: Env)
    requires ShapedOps(ops, f, env) && PlainOps(ops, f) && NLike in ops.m && Like !in ops.m
    requires IsQuery(q, ops, path, env)
    ensures MatchesOps(q, x, env) <==> HoldsOps(ops, f, x, env)
  {
    PatternHolds(ops, NLike, f, x, env);
    var regex := Query(WithOptions(map[OpRegex := Lit(ops.m[NLike].v)], ops));
    assert q == Query(map[OpNot := Doc(regex)]);
    RegexMeaning(regex, ops.m[NLike].v, OptionsOf(ops), x, env);
    Negated(q, regex, x, env);
  }

  lemma Negated(q: Query, inner: Query, x: Option<Value>, env: Env)
    requires q == Query(map[OpNot := Doc(inner)])
    ensures MatchesOps(q, x, env) <==> !MatchesOps(inner, x, env)
  {
    assert MatchesOps(q, x, env) <==> MatchesOp(OpNot, q.m[OpNot], Null, x, env);
  }

  lemma RegexMeaning(q: Query, pattern: Value, options: Value, x: Option<Value>, env: Env)
    requires {OpRegex} <= q.m.Keys <= {OpRegex, OpOptions} && q.m[OpRegex] == Lit(pattern) && pattern.Str?
    requires Operand(q, OpOptions) == options && (OpOptions in q.m ==> q.m[OpOptions].Lit?)
    ensures MatchesOps(q, x, env) <==> Likes(pattern, options, x, env)
  {
    assert MatchesOp(OpRegex, q.m[OpRegex], options, x, env) <==> Likes(pattern, options, x, env);
  }

  // ----- where objects -----

  lemma {:induction false} ObjectMeaning(q: Query, w: Where, parent: string, d: Document, view: View, env: Env)
    requires WellScoped(w, env) && IsQuery(q, w, parent, env) && Shows(view, d, env)
    ensures Matches(q, d, env) <==> Holds(w, view, env)
    decreases w
  {
    forall k | k in w.m
      ensures
        var name := NameOf(k, w.m[k], parent, env);
        && name in q.m
        && (MatchesEntry(name, q.m[name], d, env) <==> HoldsEntry(k, w.m[k], view, env))
    {
      assert ShapedEntry(k, w.m[k], env) && PlainEntry(k, w.m[k], env);
      OwnEntry(q, w, k, parent, env);
      EntryMeaning(q.m[NameOf(k, w.m[k], parent, env)], k, w.m[k], parent, d, view, env);
    }
    ShapedEnds(w, parent, env);
    NotSpecial(w, env);
    forall name | name in q.m ensures exists k :: k in w.m && NameOf(k, w.m[k], parent, env) == name {
      var from := SourceOf(q, w, name, parent, env);
    }
    if Matches(q, d, env) {
      forall k | k in w.m ensures HoldsEntry(k, w.m[k], view, env) {
        assert MatchesEntry(NameOf(k, w.m[k], parent, env), q.m[NameOf(k, w.m[k], parent, env)], d, env);
      }
    }
  }

  lemma {:induction false} EntryMeaning(v: MVal, k: Key, n: Node, parent: string, d: Document, view: View, env: Env)
    requires ShapedEntry(k, n, env) && PlainEntry(k, n, env) && IsEntry(v, k, n, parent, env) && Shows(view, d, env)
    ensures MatchesEntry(NameOf(k, n, parent, env), v, d, env) <==> HoldsEntry(k, n, view, env)
    decreases n
  {
    EntryName(k, n, parent, env);
    match n
    case Atom(x) =>
      DeclaredField(k, env);
      ConvertedOperand(env.fields[Text(k)], k, x, env);
      PlainOperand(env.fields[Text(k)], k, x, env);
    case Sub(ops) =>
      DeclaredField(k, env);
      OpsMeaning(v.q, ops, Text(k), Lookup(view, Text(k)), env);
    case Group(ws) =>
      AllWellScopedIs(ws, env);
      ListMeaning(v.qs, ws, parent, d, view, env);
  }

  lemma PlainOperand(f: Field, k: Key, v: Value, env: Env)
    requires Convert(f, k, v, env).Some? && !k.Inq? && !k.Nin? && !DollarDoc(v)
    ensures !DollarDoc(Wire(Convert(f, k, v, env).value))
  {
    if Coerced(f) {
      CoercedIsNoDocument(f, k, v, env);
    }
    DollarStays(Convert(f, k, v, env).value);
  }

  lemma OpsMeaning(q: Query, ops: Where, path: string, x: Option<Value>, env: Env)
    requires path in env.fields && ShapedOps(ops, env.fields[path], env) && PlainOps(ops, env.fields[path])
    requires IsQuery(q, ops, path, env)
    ensures MatchesOps(q, x, env) <==> HoldsOps(ops, env.fields[path], x, env)
  {
    if Like in ops.m {
      LikeMeaning(q, ops, path, env.fields[path], x, env);
    } else if NLike in ops.m {
      NLikeMeaning(q, ops, path, env.fields[path], x, env);
    } else if Exists in ops.m {
      ExistsMeaning(q, ops, path, env.fields[path], x, env);
    } else {
      ComparisonsMeaning(q, ops, path, env.fields[path], x, env);
    }
  }

  /** All members match iff all hold; with no empty member among them, one matches iff
      one holds. */
  ghost predicate ListsAgree(qs: seq<Query>, ws: seq<Where>, d: Document, view: View, env: Env) {
    && (SomeFilled(ws) ==> qs != [])
    && (AllMatch(qs, d, env) <==> AllHold(ws, view, env))
    && (NoneEmpty(ws) ==> (AnyMatches(qs, d, env) <==> AnyHolds(ws, view, env)))
  }

  lemma EmptyMemberAgrees(qs: seq<Query>, front: seq<Where>, last: Where, d: Document, view: View, env: Env)
    requires ListsAgree(qs, front, d, view, env) && last.m == map[]
    ensures ListsAgree(qs, front + [last], d, view, env)
  {
    SplitFilled(front, last);
    AppendMember(front, last, view, env);
  }

  lemma MemberAgrees(qs: seq<Query>, q: Query, front: seq<Where>, last: Where, d: Document, view: View, env: Env)
    requires ListsAgree(qs, front, d, view, env) && (Matches(q, d, env) <==> Holds(last, view, env))
    ensures ListsAgree(qs + [q], front + [last], d, view, env)
  {
    SplitFilled(front, last);
    AppendMember(front, last, view, env);
    AppendQuery(qs, q, d, env);
  }

  lemma {:induction false} ListMeaning(qs: seq<Query>, ws: seq<Where>, parent: string, d: Document, view: View,
          env: Env)
    requires AllWellScoped(ws, env) && IsList(qs, ws, parent, env) && Shows(view, d, env)
    ensures ListsAgree(qs, ws, d, view, env)
    decreases ws
  {
    if ws != [] {
      var (front, last) := (ws[..|ws| - 1], ws[|ws| - 1]);
      assert ws == front + [last];
      assert WellScoped(last, env);
      LastMember(qs, front, last, parent, env);
      if last.m == map[] {
        ListMeaning(qs, front, parent, d, view, env);
        EmptyMemberAgrees(qs, front, last, d, view, env);
      } else {
        var end := |qs| - 1;
        ListMeaning(qs[..end], front, parent, d, view, env);
        ObjectMeaning(qs[end], last, parent, d, view, env);
        MemberAgrees(qs[..end], qs[end], front, last, d, view, env);
      }
    }
  }

  // ----- main theorem -----

  /** Whatever a call on a well-scoped tree returns, it is a query without warnings
      that the server accepts and that matches exactly the documents the tree holds of. */
  lemma CompilerCorrect(r: Outcome, w: Where, env: Env)
    requires WellScoped(w, env) && Compiled(r, w, "", env)
    ensures r.Success? && r.warnings == [] && Accepted(r.query)
    ensures forall d, view :: Shows(view, d, env) ==> (Matches(r.query, d, env) <==> Holds(w, view, env))
  {
    AcceptedIffTaken(r, w, env);
    PlainIsTaken(w, env);
    forall d, view | Shows(view, d, env) ensures Matches(r.query, d, env) <==> Holds(w, view, env) {
      ObjectMeaning(r.query, w, "", d, view, env);
    }
  }
}
