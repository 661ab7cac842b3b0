/** What holds of every tree the compiler is given, well-scoped or not, and where it
    departs from what the tree says. */
module CompilerSafety {
  import opened Wrappers
  import opened Lbq
  import opened Mongo
  import opened FieldResolution
  import opened WhereCompiler
  import opened CompilerShape
  import opened CompilerAcceptance
  import opened CompilerCorrectness
  import opened Erasure

  // ----- no vacuous subqueries -----

  /** No empty document and no empty list below q. */
  ghost predicate Substantial(q: Query)
    decreases q
  {
    forall k :: k in q.m ==> SubstantialEntry(q.m[k])
  }

  ghost predicate SubstantialEntry(v: MVal)
    decreases v
  {
    match v
    case Doc(q) => q.m != map[] && Substantial(q)
    case List(qs) => qs != [] && AllSubstantial(qs)
    case _ => true
  }

  ghost predicate AllSubstantial(qs: seq<Query>)
    decreases qs
  {
    forall i :: 0 <= i < |qs| ==> qs[i].m != map[] && Substantial(qs[i])
  }

  /** A query is empty exactly when the call ends Empty. */
  lemma FilledQuery(q: Query, w: Where, parent: string, env: Env)
    requires Succeeds(w, parent, env) && IsQuery(q, w, parent, env)
    ensures q.m == map[] <==> StatusOf(w, parent, env) == Empty
  {
    if Special(w) {
      var key := if Exists in w.m then OpExists else if Like in w.m then OpRegex else OpNot;
      assert key in q.m;
    } else if StatusOf(w, parent, env) == Full {
      var k :| k in w.m && EntryStatus(k, w.m[k], parent, env) == Full;
      assert Emits(k, w.m[k], parent, env) && NameOf(k, w.m[k], parent, env) in q.m;
    }
  }

  lemma SpecialSubstantial(w: Where)
    requires Special(w)
    ensures Substantial(SpecialQuery(w))
  {
    var q := SpecialQuery(w);
    forall k | k in q.m ensures SubstantialEntry(q.m[k]) {
      if k.OpNot? {
        assert OpRegex in q.m[k].q.m;
      }
    }
  }

  lemma {:induction false} NoVacuousSubqueries(q: Query, w: Where, parent: string, env: Env)
    requires Succeeds(w, parent, env) && IsQuery(q, w, parent, env)
    ensures Substantial(q)
    decreases w
  {
    if Special(w) {
      SpecialSubstantial(w);
    } else {
      forall name | name in q.m ensures SubstantialEntry(q.m[name]) {
        var k := SourceOf(q, w, name, parent, env);
        EntrySubstantial(q.m[name], k, w.m[k], parent, env);
      }
    }
  }

  lemma {:induction false} EntrySubstantial(v: MVal, k: Key, n: Node, parent: string, env: Env)
    requires Emits(k, n, parent, env) && IsEntry(v, k, n, parent, env)
    ensures SubstantialEntry(v)
    decreases n
  {
    match n
    case Atom(_) =>
    case Sub(w) =>
      FilledQuery(v.q, w, Text(k), env);
      NoVacuousSubqueries(v.q, w, Text(k), env);
    case Group(ws) =>
      GroupSucceeds(ws, parent, env);
      assert AnyEnds(Full, ws, parent, env);
      ListSubstantial(v.qs, ws, parent, env);
  }

  lemma {:induction false} ListSubstantial(qs: seq<Query>, ws: seq<Where>, parent: string, env: Env)
    requires AllSucceed(ws, parent, env) && IsList(qs, ws, parent, env)
    ensures AllSubstantial(qs) && (AnyEnds(Full, ws, parent, env) ==> qs != [])
    decreases ws
  {
    if ws != [] {
      var last := |ws| - 1;
      assert ws == ws[..last] + [ws[last]];
      MemberEnds(Full, ws[..last], ws[last], parent, env);
      if StatusOf(ws[last], parent, env) == Full {
        var end := |qs| - 1;
        ListSubstantial(qs[..end], ws[..last], parent, env);
        FilledQuery(qs[end], ws[last], parent, env);
        NoVacuousSubqueries(qs[end], ws[last], parent, env);
      } else {
        ListSubstantial(qs, ws[..last], parent, env);
      }
    }
  }

  // ----- errors and panics anywhere reach the top -----

  /** The call on w reaches the object `inner`, there under `innerParent`. */
  ghost predicate Reaches(w: Where, parent: string, inner: Where, innerParent: string, env: Env)
    decreases w
  {
    || (w == inner && parent == innerParent)
    || (WHERE_CLAUSE !in w.m && !Special(w) &&
        exists k :: k in w.m && EntryReaches(k, w.m[k], parent, inner, innerParent, env))
  }

  ghost predicate EntryReaches(k: Key, n: Node, parent: string, inner: Where, innerParent: string, env: Env)
    decreases n
  {
    Visited(k, env) &&
    match n
    case Atom(_) => false
    case Sub(w) => Reaches(w, Text(k), inner, innerParent, env)
    case Group(ws) => exists i :: 0 <= i < |ws| && Reaches(ws[i], parent, inner, innerParent, env)
  }

  predicate Bad(s: Status) { s.Rejects? || s.Crashes? }

  /** An error at any object a call reaches fails the whole call. */
  lemma {:induction false} ErrorsSurface(w: Where, parent: string, inner: Where, innerParent: string, env: Env)
    requires Reaches(w, parent, inner, innerParent, env) && Bad(StatusOf(inner, innerParent, env))
    ensures Bad(StatusOf(w, parent, env))
    decreases w
  {
    if !(w == inner && parent == innerParent) {
      var k :| k in w.m && EntryReaches(k, w.m[k], parent, inner, innerParent, env);
      assert Bad(EntryStatus(k, w.m[k], parent, env)) by {
        match w.m[k]
        case Sub(sub) => ErrorsSurface(sub, Text(k), inner, innerParent, env);
        case Group(ws) =>
          var i :| 0 <= i < |ws| && Reaches(ws[i], parent, inner, innerParent, env);
          ErrorsSurface(ws[i], parent, inner, innerParent, env);
          assert AnyEnds(Crashes, ws, parent, env) || AnyEnds(Rejects, ws, parent, env);
      }
    }
  }

  /** A plain operand under an operator key that no field covers. */
  ghost predicate BareOperand(w: Where, parent: string, env: Env)
    decreases w
  {
    WHERE_CLAUSE !in w.m && !Special(w) && exists k :: k in w.m && BareEntry(k, w.m[k], parent, env)
  }

  ghost predicate BareEntry(k: Key, n: Node, parent: string, env: Env)
    decreases n
  {
    Visited(k, env) &&
    match n
    case Atom(_) => IsOperator(k) && Resolve(parent, env.fields).None?
    case Sub(w) => BareOperand(w, Text(k), env)
    case Group(ws) => exists i :: 0 <= i < |ws| && BareOperand(ws[i], parent, env)
  }

  /** The compiler dereferences a nil field exactly when it meets a bare operand. */
  lemma {:induction false} CrashesIffBareOperand(w: Where, parent: string, env: Env)
    ensures StatusOf(w, parent, env) == Crashes <==> BareOperand(w, parent, env)
    decreases w
  {
    forall k | k in w.m ensures EntryStatus(k, w.m[k], parent, env) == Crashes <==> BareEntry(k, w.m[k], parent, env) {
      match w.m[k]
      case Atom(_) =>
      case Sub(sub) => CrashesIffBareOperand(sub, Text(k), env);
      case Group(ws) =>
        forall i | 0 <= i < |ws| ensures StatusOf(ws[i], parent, env) == Crashes <==> BareOperand(ws[i], parent, env) {
          CrashesIffBareOperand(ws[i], parent, env);
        }
        assert AnyEnds(Crashes, ws, parent, env) <==> exists i :: 0 <= i < |ws| && BareOperand(ws[i], parent, env);
    }
  }

  /** The smallest panic: an operator with an operand at the top level. */
  lemma BareOperatorCrashes(v: Value, env: Env)
    requires "" !in env.fields
    ensures StatusOf(Where(map[Eq := Atom(v)]), "", env) == Crashes
  {
    var w := Where(map[Eq := Atom(v)]);
    assert EntryStatus(Eq, w.m[Eq], "", env) == Crashes;
  }

  // ----- where the query departs from the tree -----

  lemma OneEntry(q: Query, k: Key, n: Node, parent: string, env: Env)
    requires IsQuery(q, Where(map[k := n]), parent, env) && Emits(k, n, parent, env)
    requires !Special(Where(map[k := n]))
    ensures q.m.Keys == {NameOf(k, n, parent, env)} && IsEntry(q.m[NameOf(k, n, parent, env)], k, n, parent, env)
  {
    var w := Where(map[k := n]);
    OwnsEntry(q, w, k, parent, env);
    forall name | name in q.m ensures name == NameOf(k, n, parent, env) {
      var from := SourceOf(q, w, name, parent, env);
    }
  }

  lemma OnlyFullMembers(qs: seq<Query>, w: Where, env: Env)
    requires StatusOf(EMPTY, "", env) == Empty && StatusOf(w, "", env) == Full
    requires IsList(qs, [EMPTY, w], "", env)
    ensures |qs| == 1 && IsQuery(qs[0], w, "", env)
  {
    var ws := [EMPTY, w];
    assert ws[..1] == [EMPTY] && ws[..1][..0] == [];
    var front := qs[..|qs| - 1];
    assert IsList(front, ws[..1], "", env);
    assert IsList(front, ws[..1][..0], "", env);
  }

  lemma PairEnds(w: Where, env: Env)
    requires WellScoped(w, env) && w.m != map[]
    ensures EntryStatus(Or, Group([EMPTY, w]), "", env) == Full
    ensures StatusOf(EMPTY, "", env) == Empty && StatusOf(w, "", env) == Full
    ensures StatusOf(Where(map[Or := Group([EMPTY, w])]), "", env) == Full
  {
    var ws := [EMPTY, w];
    ShapedEnds(w, "", env);
    ShapedEnds(EMPTY, "", env);
    assert ws[1].m != map[];
    GroupEnds(ws, "", env);
    var tree := Where(map[Or := Group(ws)]);
    assert EntryStatus(Or, tree.m[Or], "", env) == Full;
  }

  lemma OrQueryMeaning(q: Query, w: Where, env: Env, d: Document, view: View)
    requires WellScoped(w, env) && w.m != map[] && Shows(view, d, env)
    requires IsQuery(q, Where(map[Or := Group([EMPTY, w])]), "", env)
    ensures Matches(q, d, env) <==> Holds(w, view, env)
  {
    PairEnds(w, env);
    OneEntry(q, Or, Group([EMPTY, w]), "", env);
    var qs := q.m[OpOr].qs;
    OnlyFullMembers(qs, w, env);
    ObjectMeaning(qs[0], w, "", d, view, env);
    MatchesOne(q, qs, d, env);
  }

  lemma MatchesOne(q: Query, qs: seq<Query>, d: Document, env: Env)
    requires q.m.Keys == {OpOr} && q.m[OpOr] == List(qs) && |qs| == 1
    ensures Matches(q, d, env) <==> Matches(qs[0], d, env)
  {
    assert AnyMatches(qs, d, env) <==> Matches(qs[0], d, env);
    assert MatchesEntry(OpOr, q.m[OpOr], d, env) <==> AnyMatches(qs, d, env);
    assert Matches(q, d, env) <==> MatchesEntry(OpOr, q.m[OpOr], d, env);
  }

  lemma OrWithEmptyHolds(w: Where, view: View, env: Env)
    ensures Holds(Where(map[Or := Group([EMPTY, w])]), view, env)
  {
    var ws := [EMPTY, w];
    assert ws[0] == EMPTY && Holds(ws[0], view, env);
    assert AnyHolds(ws, view, env);
    var tree := Where(map[Or := Group(ws)]);
    assert HoldsEntry(Or, tree.m[Or], view, env);
    assert forall k :: k in tree.m ==> k == Or;
  }

  /** An empty member of an `or` is true of every document, yet the query leaves it
      out and asks for the other member alone. */
  lemma OrDropsEmptyMember(r: Outcome, w: Where, env: Env, d: Document, view: View)
    requires WellScoped(w, env) && w.m != map[] && Shows(view, d, env)
    requires Compiled(r, Where(map[Or := Group([EMPTY, w])]), "", env)
    ensures r.Success? && (Matches(r.query, d, env) <==> Holds(w, view, env))
    ensures Holds(Where(map[Or := Group([EMPTY, w])]), view, env)
    ensures !KeepsChoices(Where(map[Or := Group([EMPTY, w])]), "", env)
  {
    PairEnds(w, env);
    var tree := Where(map[Or := Group([EMPTY, w])]);
    assert Emits(Or, tree.m[Or], "", env) && [EMPTY, w][0] == EMPTY;
    assert AnyEnds(Empty, [EMPTY, w], "", env);
    assert !KeepsChoicesEntry(Or, tree.m[Or], "", env);
    OrQueryMeaning(r.query, w, env, d, view);
    OrWithEmptyHolds(w, view, env);
  }

  /** When two keys of an object emit under one name, either entry may be the one that
      survives, depending on the visiting order. */
  lemma CollidingKeysLoseOne(q: Query, w: Where, k: Key, k': Key, v: MVal, v': MVal, parent: string, env: Env)
    requires !Special(w) && IsQuery(q, w, parent, env)
    requires k in w.m && Emits(k, w.m[k], parent, env) && IsEntry(v, k, w.m[k], parent, env)
    requires k' in w.m && Emits(k', w.m[k'], parent, env) && IsEntry(v', k', w.m[k'], parent, env)
    requires NameOf(k, w.m[k], parent, env) == NameOf(k', w.m[k'], parent, env)
    ensures var name := NameOf(k, w.m[k], parent, env);
            IsQuery(Query(q.m[name := v]), w, parent, env) && IsQuery(Query(q.m[name := v']), w, parent, env)
  {
    Replaceable(q, w, k, v, parent, env);
    Replaceable(q, w, k', v', parent, env);
  }

  lemma Replaceable(q: Query, w: Where, k: Key, v: MVal, parent: string, env: Env)
    requires !Special(w) && IsQuery(q, w, parent, env)
    requires k in w.m && Emits(k, w.m[k], parent, env) && IsEntry(v, k, w.m[k], parent, env)
    ensures IsQuery(Query(q.m[NameOf(k, w.m[k], parent, env) := v]), w, parent, env)
  {
    var own := NameOf(k, w.m[k], parent, env);
    var q' := Query(q.m[own := v]);
    forall name | name in q'.m
      ensures exists from ::
                from in w.m && Emits(from, w.m[from], parent, env) && NameOf(from, w.m[from], parent, env) == name
                             && IsEntry(q'.m[name], from, w.m[from], parent, env)
    {
      if name != own {
        var from := SourceOf(q, w, name, parent, env);
        assert IsEntry(q'.m[name], from, w.m[from], parent, env);
      }
    }
  }

  /** This is what happens to a declared path and an undeclared one below it. */
  lemma SuffixCollides(path: string, suffix: string, n: Node, n': Node, parent: string, env: Env)
    requires path in env.fields && path + "." + suffix !in env.fields && '.' !in suffix
    requires Lex(path) == Path(path) && Lex(path + "." + suffix) == Path(path + "." + suffix)
    ensures NameOf(Lex(path), n, parent, env) == NameOf(Lex(path + "." + suffix), n', parent, env)
         == Stored(env.fields[path].bsonName)
  {
    ExactPath(path, env.fields);
    SuffixIsLost(path, suffix, env.fields);
  }

  /** exists, like and nlike overrule every other key of their object. */
  lemma SiblingsAreDiscarded(ops: Where, extra: map<Key, Node>, path: string, env: Env, q: Query)
    requires Special(ops) && WHERE_CLAUSE !in ops.m
    requires extra.Keys !! {Exists, Like, NLike, Options, WHERE_CLAUSE}
    ensures IsQuery(q, ops, path, env) <==> IsQuery(q, Where(ops.m + extra), path, env)
    ensures StatusOf(ops, path, env) == StatusOf(Where(ops.m + extra), path, env)
  {
    var more := Where(ops.m + extra);
    assert forall k | k in {Exists, Like, NLike, Options, WHERE_CLAUSE} :: k in more.m <==> k in ops.m;
    assert forall k | k in {Exists, Like, NLike, Options} && k in ops.m :: more.m[k] == ops.m[k];
  }
}
