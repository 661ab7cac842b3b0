/** What the compiler silently leaves out of a `where`, and what is left.

    Keys of unknown fields, dollar keys, operands without a conversion, members that
    come out empty and the keys next to exists, like and nlike add nothing to the
    query. `Erase` removes them from the tree. */
module Erasure {
  import opened Wrappers
  import opened Lbq
  import opened Mongo
  import opened FieldResolution
  import opened WhereCompiler
  import opened CompilerShape
  import opened CompilerAcceptance
  import opened CompilerCorrectness

  ghost function Erase(w: Where, parent: string, env: Env): Where
    decreases w
  {
    if Special(w) then SpecialCore(w)
    else Where(map k | k in w.m && Emits(k, w.m[k], parent, env) :: EraseNode(k, w.m[k], parent, env))
  }

  /** The keys that exists, like or nlike leave standing. */
  function SpecialCore(w: Where): Where {
    var kept := if Exists in w.m then {Exists} else if Like in w.m then {Like, Options} else {NLike, Options};
    Where(map k | k in w.m && k in kept :: w.m[k])
  }

  ghost function EraseNode(k: Key, n: Node, parent: string, env: Env): Node
    decreases n
  {
    match n
    case Atom(_) => n
    case Sub(w) => Sub(Erase(w, Text(k), env))
    case Group(ws) => Group(EraseAll(ws, parent, env))
  }

  ghost function EraseAll(ws: seq<Where>, parent: string, env: Env): seq<Where>
    decreases ws
  {
    if ws == [] then []
    else
      var last := |ws| - 1;
      var front := EraseAll(ws[..last], parent, env);
      if StatusOf(ws[last], parent, env) == Full then front + [Erase(ws[last], parent, env)] else front
  }

  ghost predicate Succeeds(w: Where, parent: string, env: Env) {
    StatusOf(w, parent, env) == Empty || StatusOf(w, parent, env) == Full
  }

  ghost predicate AllSucceed(ws: seq<Where>, parent: string, env: Env) {
    forall i :: 0 <= i < |ws| ==> Succeeds(ws[i], parent, env)
  }

  lemma GroupSucceeds(ws: seq<Where>, parent: string, env: Env)
    requires GroupStatus(ws, parent, env) == Full
    ensures AllSucceed(ws, parent, env)
  {
    forall i | 0 <= i < |ws| ensures Succeeds(ws[i], parent, env) {
      assert !AnyEnds(Crashes, ws, parent, env) && !AnyEnds(Rejects, ws, parent, env);
    }
  }

  lemma SpecialErased(w: Where, parent: string, env: Env)
    requires Special(w) && Succeeds(w, parent, env)
    ensures Special(SpecialCore(w)) && SpecialQuery(SpecialCore(w)) == SpecialQuery(w)
    ensures StatusOf(SpecialCore(w), parent, env) == Full
  {}

  // ----- the erased tree compiles to the same queries -----

  /** A successful tree and its erasure end alike, may return exactly the same queries,
      and the erasure has nothing to warn about. */
  lemma {:induction false} SameQueries(w: Where, parent: string, env: Env, q: Query)
    requires Succeeds(w, parent, env)
    ensures StatusOf(Erase(w, parent, env), parent, env) == StatusOf(w, parent, env)
    ensures UnknownFields(Erase(w, parent, env), parent, env) == {}
    ensures IsQuery(q, w, parent, env) <==> IsQuery(q, Erase(w, parent, env), parent, env)
    decreases w, 0
  {
    var e := Erase(w, parent, env);
    if Special(w) {
      SpecialErased(w, parent, env);
    } else {
      forall k | k in w.m && Emits(k, w.m[k], parent, env) ensures Keeps(k, w.m[k], e.m[k], parent, env) {
        SameEntries(k, w.m[k], parent, env);
      }
      ObjectErased(w, parent, env);
      SameObject(w, e, parent, env, q);
    }
  }

  /** Both nodes are stored under the same name and may come out as the same entries;
      the second warns about nothing. */
  ghost predicate Keeps(k: Key, n: Node, e: Node, parent: string, env: Env) {
    && Emits(k, n, parent, env) && Emits(k, e, parent, env)
    && NameOf(k, e, parent, env) == NameOf(k, n, parent, env)
    && EntryUnknown(k, e, parent, env) == {}
    && forall v :: IsEntry(v, k, n, parent, env) <==> IsEntry(v, k, e, parent, env)
  }

  ghost predicate AllKept(w: Where, parent: string, env: Env)
    requires !Special(w)
  {
    forall k :: k in w.m && Emits(k, w.m[k], parent, env) ==> Keeps(k, w.m[k], Erase(w, parent, env).m[k], parent, env)
  }

  lemma ObjectErased(w: Where, parent: string, env: Env)
    requires Succeeds(w, parent, env) && !Special(w) && AllKept(w, parent, env)
    ensures !Special(Erase(w, parent, env))
    ensures StatusOf(Erase(w, parent, env), parent, env) == StatusOf(w, parent, env)
    ensures UnknownFields(Erase(w, parent, env), parent, env) == {}
  {
    var e := Erase(w, parent, env);
    assert WHERE_CLAUSE !in e.m;
    forall k | k in e.m
      ensures EntryStatus(k, e.m[k], parent, env) == Full && EntryUnknown(k, e.m[k], parent, env) == {}
    {
      assert Keeps(k, w.m[k], e.m[k], parent, env);
    }
    AllFull(e, parent, env);
    if StatusOf(w, parent, env) == Full {
      var k :| k in w.m && EntryStatus(k, w.m[k], parent, env) == Full;
      assert k in e.m;
    }
  }

  lemma SameObject(w: Where, e: Where, parent: string, env: Env, q: Query)
    requires !Special(w) && !Special(e) && e == Erase(w, parent, env) && AllKept(w, parent, env)
    ensures IsQuery(q, w, parent, env) <==> IsQuery(q, e, parent, env)
  {
    if IsQuery(q, w, parent, env) {
      forall k | k in w.m && Emits(k, w.m[k], parent, env)
        ensures k in e.m && Carries(k, w.m[k], e.m[k], parent, env)
      {
        assert Keeps(k, w.m[k], e.m[k], parent, env);
      }
      forall k | k in e.m ensures k in w.m && Covers(k, e.m[k], w.m[k], parent, env) {
        assert Keeps(k, w.m[k], e.m[k], parent, env);
      }
      QueryCarriesOver(q, w, e, parent, env);
    }
    if IsQuery(q, e, parent, env) {
      forall k | k in e.m ensures k in w.m && Carries(k, e.m[k], w.m[k], parent, env) {
        assert Keeps(k, w.m[k], e.m[k], parent, env);
      }
      forall k | k in w.m && Emits(k, w.m[k], parent, env)
        ensures k in e.m && Covers(k, w.m[k], e.m[k], parent, env)
      {
        assert Keeps(k, w.m[k], e.m[k], parent, env);
      }
      QueryCarriesOver(q, e, w, parent, env);
    }
  }

  ghost predicate Covers(k: Key, n: Node, n': Node, parent: string, env: Env) {
    Emits(k, n', parent, env) && NameOf(k, n', parent, env) == NameOf(k, n, parent, env)
  }

  ghost predicate Carries(k: Key, n: Node, n': Node, parent: string, env: Env) {
    Covers(k, n, n', parent, env) && forall v :: IsEntry(v, k, n, parent, env) ==> IsEntry(v, k, n', parent, env)
  }

  lemma QueryCarriesOver(q: Query, a: Where, b: Where, parent: string, env: Env)
    requires !Special(a) && !Special(b) && IsQuery(q, a, parent, env)
    requires forall k :: k in a.m && Emits(k, a.m[k], parent, env) ==>
             k in b.m && Carries(k, a.m[k], b.m[k], parent, env)
    requires forall k :: k in b.m && Emits(k, b.m[k], parent, env) ==>
             k in a.m && Covers(k, b.m[k], a.m[k], parent, env)
    ensures IsQuery(q, b, parent, env)
  {
    forall name | name in q.m
      ensures exists k :: k in b.m && Emits(k, b.m[k], parent, env) && NameOf(k, b.m[k], parent, env) == name
                          && IsEntry(q.m[name], k, b.m[k], parent, env)
    {
      var k := SourceOf(q, a, name, parent, env);
      assert Carries(k, a.m[k], b.m[k], parent, env);
    }
    forall k | k in b.m && Emits(k, b.m[k], parent, env) ensures NameOf(k, b.m[k], parent, env) in q.m {
      assert Covers(k, b.m[k], a.m[k], parent, env);
    }
  }

  lemma {:induction false} SameEntries(k: Key, n: Node, parent: string, env: Env)
    requires Emits(k, n, parent, env)
    ensures Keeps(k, n, EraseNode(k, n, parent, env), parent, env)
    decreases n, 1
  {
    forall v ensures IsEntry(v, k, n, parent, env) <==> IsEntry(v, k, EraseNode(k, n, parent, env), parent, env) {
      SameEntry(k, n, parent, env, v);
    }
    SameEntry(k, n, parent, env, Lit(Null));
  }

  lemma {:induction false} SameEntry(k: Key, n: Node, parent: string, env: Env, v: MVal)
    requires Emits(k, n, parent, env)
    ensures var e := EraseNode(k, n, parent, env);
            && Emits(k, e, parent, env) && EntryUnknown(k, e, parent, env) == {}
            && NameOf(k, e, parent, env) == NameOf(k, n, parent, env)
            && (IsEntry(v, k, n, parent, env) <==> IsEntry(v, k, e, parent, env))
    decreases n, 0
  {
    match n
    case Atom(_) =>
    case Sub(w) => SameQueries(w, Text(k), env, if v.Doc? then v.q else Query(map[]));
    case Group(ws) =>
      GroupSucceeds(ws, parent, env);
      SameGroup(ws, parent, env, if v.List? then v.qs else []);
  }

  lemma {:induction false} SameGroup(ws: seq<Where>, parent: string, env: Env, qs: seq<Query>)
    requires AllSucceed(ws, parent, env) && AnyEnds(Full, ws, parent, env)
    ensures var e := EraseAll(ws, parent, env);
            GroupStatus(e, parent, env) == Full && UnknownIn(e, parent, env) == {}
    ensures IsList(qs, ws, parent, env) <==> IsList(qs, EraseAll(ws, parent, env), parent, env)
    decreases ws, 1
  {
    SameLists(ws, parent, env, qs);
    FullGroup(EraseAll(ws, parent, env), parent, env);
  }

  lemma FullGroup(ws: seq<Where>, parent: string, env: Env)
    requires ws != [] && AllFilled(ws, parent, env)
    ensures GroupStatus(ws, parent, env) == Full && UnknownIn(ws, parent, env) == {}
  {
    assert StatusOf(ws[0], parent, env) == Full;
  }

  ghost predicate AllFilled(ws: seq<Where>, parent: string, env: Env) {
    forall i :: 0 <= i < |ws| ==> StatusOf(ws[i], parent, env) == Full && UnknownFields(ws[i], parent, env) == {}
  }

  lemma {:induction false} SameLists(ws: seq<Where>, parent: string, env: Env, qs: seq<Query>)
    requires AllSucceed(ws, parent, env)
    ensures AllFilled(EraseAll(ws, parent, env), parent, env)
    ensures AnyEnds(Full, ws, parent, env) ==> EraseAll(ws, parent, env) != []
    ensures IsList(qs, ws, parent, env) <==> IsList(qs, EraseAll(ws, parent, env), parent, env)
    decreases ws, 0
  {
    if ws != [] {
      var last := |ws| - 1;
      LastEnds(ws, parent, env);
      if StatusOf(ws[last], parent, env) == Full {
        SameLists(ws[..last], parent, env, if qs == [] then [] else qs[..|qs| - 1]);
        SameQueries(ws[last], parent, env, if qs == [] then Query(map[]) else qs[|qs| - 1]);
        ListGrows(EraseAll(ws[..last], parent, env), Erase(ws[last], parent, env), parent, env, qs);
      } else {
        SameLists(ws[..last], parent, env, qs);
      }
    }
  }

  lemma LastEnds(ws: seq<Where>, parent: string, env: Env)
    requires ws != [] && AllSucceed(ws, parent, env)
    ensures var last := |ws| - 1;
            && AllSucceed(ws[..last], parent, env) && Succeeds(ws[last], parent, env)
            && (AnyEnds(Full, ws, parent, env) <==>
                AnyEnds(Full, ws[..last], parent, env) || StatusOf(ws[last], parent, env) == Full)
  {
    var last := |ws| - 1;
    assert ws == ws[..last] + [ws[last]];
    MemberEnds(Full, ws[..last], ws[last], parent, env);
  }

  lemma ListGrows(ws: seq<Where>, w: Where, parent: string, env: Env, qs: seq<Query>)
    requires StatusOf(w, parent, env) == Full
    ensures IsList(qs, ws + [w], parent, env) <==>
            qs != [] && IsQuery(qs[|qs| - 1], w, parent, env) && IsList(qs[..|qs| - 1], ws, parent, env)
    ensures AllFilled(ws + [w], parent, env) <==> AllFilled(ws, parent, env) && UnknownFields(w, parent, env) == {}
  {
    assert (ws + [w])[..|ws|] == ws && (ws + [w])[|ws|] == w;
    assert forall i :: 0 <= i < |ws| ==> (ws + [w])[i] == ws[i];
  }

  // ----- the erased tree is shaped -----

  /** Where things stand in a tree: declared paths over operands or operator objects,
      and/or over lists. Whatever is not visited may be anything. */
  ghost predicate Placed(w: Where, env: Env)
    decreases w
  {
    DistinctNames(w, env) && !Special(w) && forall k :: k in w.m ==> PlacedEntry(k, w.m[k], env)
  }

  ghost predicate PlacedEntry(k: Key, n: Node, env: Env)
    decreases n
  {
    Visited(k, env) ==>
      match n
      case Atom(_) => Declared(k, env)
      case Sub(ops) => Declared(k, env) && PlacedOps(ops, env)
      case Group(ws) => (k.And? || k.Or?) && AllPlaced(ws, env)
  }

  ghost predicate AllPlaced(ws: seq<Where>, env: Env)
    decreases ws
  {
    forall i :: 0 <= i < |ws| ==> Placed(ws[i], env)
  }

  predicate PlacedOps(ops: Where, env: Env) {
    if Special(ops) then forall k <- SpecialCore(ops).m.Keys :: ops.m[k].Atom?
    else forall k <- ops.m.Keys ::
           Visited(k, env) ==> IsComparator(k) && ops.m[k].Atom?
  }

  /** Erasure leaves operands as they are. */
  lemma AtomKept(w: Where, k: Key, parent: string, env: Env)
    requires !Special(w) && k in Erase(w, parent, env).m
    ensures k in w.m && Visited(k, env) && (w.m[k].Atom? <==> Erase(w, parent, env).m[k].Atom?)
    ensures w.m[k].Atom? ==> Erase(w, parent, env).m[k] == w.m[k] && EntryStatus(k, w.m[k], parent, env) == Full
  {
    assert Erase(w, parent, env).m[k] == EraseNode(k, w.m[k], parent, env);
    assert EntryStatus(k, w.m[k], parent, env) == Full;
  }

  lemma ErasedOps(ops: Where, path: string, f: Field, env: Env)
    requires PlacedOps(ops, env) && Resolve(path, env.fields) == Some(f)
    requires StatusOf(ops, path, env) == Full
    ensures ShapedOps(Erase(ops, path, env), f, env)
  {
    var e := Erase(ops, path, env);
    if Special(ops) {
      var key := if Exists in ops.m then Exists else if Like in ops.m then Like else NLike;
      assert e == SpecialCore(ops) && key in e.m;
      forall k | k in e.m ensures e.m[k].Atom? {
        assert k in SpecialCore(ops).m.Keys;
      }
    } else {
      forall k | k in e.m
        ensures IsComparator(k) && ops.m[k].Atom? && e.m[k] == ops.m[k] && Convert(f, k, ops.m[k].v, env).Some?
      {
        AtomKept(ops, k, path, env);
      }
      var some :| some in ops.m && EntryStatus(some, ops.m[some], path, env) == Full;
      assert some in e.m;
    }
  }

  lemma FullIsFilled(w: Where, parent: string, env: Env)
    requires StatusOf(w, parent, env) == Full
    ensures w.m != map[]
  {}

  lemma {:induction false} ErasedShaped(w: Where, parent: string, env: Env)
    requires Placed(w, env) && Succeeds(w, parent, env)
    ensures Shaped(Erase(w, parent, env), env)
    decreases w
  {
    var e := Erase(w, parent, env);
    forall k | k in e.m ensures ShapedEntry(k, e.m[k], env) {
      ErasedEntry(k, w.m[k], parent, env);
    }
  }

  lemma {:induction false} ErasedEntry(k: Key, n: Node, parent: string, env: Env)
    requires PlacedEntry(k, n, env) && Emits(k, n, parent, env)
    ensures ShapedEntry(k, EraseNode(k, n, parent, env), env)
    decreases n
  {
    match n
    case Atom(_) =>
    case Sub(ops) => ErasedOps(ops, Text(k), env.fields[Text(k)], env);
    case Group(ws) =>
      GroupSucceeds(ws, parent, env);
      assert AnyEnds(Full, ws, parent, env);
      ErasedList(ws, parent, env);
  }

  lemma {:induction false} ErasedList(ws: seq<Where>, parent: string, env: Env)
    requires AllPlaced(ws, env) && AllSucceed(ws, parent, env)
    ensures AllShaped(EraseAll(ws, parent, env), env) && NoneEmpty(EraseAll(ws, parent, env))
    ensures AnyEnds(Full, ws, parent, env) ==> SomeFilled(EraseAll(ws, parent, env))
    decreases ws
  {
    if ws != [] {
      var last := |ws| - 1;
      assert ws == ws[..last] + [ws[last]];
      MemberEnds(Full, ws[..last], ws[last], parent, env);
      ErasedList(ws[..last], parent, env);
      if StatusOf(ws[last], parent, env) == Full {
        ErasedShaped(ws[last], parent, env);
        SameQueries(ws[last], parent, env, Query(map[]));
        FullIsFilled(Erase(ws[last], parent, env), parent, env);
        SplitShaped(EraseAll(ws[..last], parent, env), Erase(ws[last], parent, env), env);
        SplitFilled(EraseAll(ws[..last], parent, env), Erase(ws[last], parent, env));
      }
    }
  }

  // ----- leaving things out only widens the query, unless a choice is lost -----

  /** No member of an `or` that goes into the query comes out empty. */
  ghost predicate KeepsChoices(w: Where, parent: string, env: Env)
    decreases w
  {
    Special(w) || forall k :: k in w.m && Emits(k, w.m[k], parent, env) ==> KeepsChoicesEntry(k, w.m[k], parent, env)
  }

  ghost predicate KeepsChoicesEntry(k: Key, n: Node, parent: string, env: Env)
    decreases n
  {
    match n
    case Group(ws) => (k.Or? ==> !AnyEnds(Empty, ws, parent, env)) && AllKeepChoices(ws, parent, env)
    case _ => true
  }

  ghost predicate AllKeepChoices(ws: seq<Where>, parent: string, env: Env)
    decreases ws
  {
    forall i :: 0 <= i < |ws| && StatusOf(ws[i], parent, env) == Full ==> KeepsChoices(ws[i], parent, env)
  }

  lemma {:induction false} ErasureWidens(w: Where, parent: string, view: View, env: Env)
    requires KeepsChoices(w, parent, env) && Holds(w, view, env)
    ensures Holds(Erase(w, parent, env), view, env)
    decreases w
  {
    var e := Erase(w, parent, env);
    forall k | k in e.m ensures HoldsEntry(k, e.m[k], view, env) {
      assert HoldsEntry(k, w.m[k], view, env);
      if !Special(w) {
        assert Emits(k, w.m[k], parent, env);
        EntryWidens(k, w.m[k], parent, view, env);
      }
    }
  }

  lemma {:induction false} EntryWidens(k: Key, n: Node, parent: string, view: View, env: Env)
    requires Emits(k, n, parent, env) && KeepsChoicesEntry(k, n, parent, env) && HoldsEntry(k, n, view, env)
    ensures HoldsEntry(k, EraseNode(k, n, parent, env), view, env)
    decreases n
  {
    match n
    case Atom(_) =>
    case Sub(ops) =>
      OpsWiden(ops, Text(k), FieldAt(Text(k), env), Lookup(view, Text(k)), env);
    case Group(ws) =>
      GroupSucceeds(ws, parent, env);
      if k.Or? {
        ChoicesWiden(ws, parent, view, env);
      } else {
        ListWidens(ws, parent, view, env);
      }
  }

  lemma OpsWiden(ops: Where, path: string, f: Field, x: Option<Value>, env: Env)
    requires HoldsOps(ops, f, x, env)
    ensures HoldsOps(Erase(ops, path, env), f, x, env)
  {
    var e := Erase(ops, path, env);
    assert (Like in e.m || NLike in e.m) ==> OptionsOf(e) == OptionsOf(ops);
    forall k | k in e.m && e.m[k].Atom? ensures k in ops.m && ops.m[k] == e.m[k] {
      if !Special(ops) {
        AtomKept(ops, k, path, env);
      }
    }
  }

  lemma {:induction false} ListWidens(ws: seq<Where>, parent: string, view: View, env: Env)
    requires AllKeepChoices(ws, parent, env) && AllHold(ws, view, env)
    ensures AllHold(EraseAll(ws, parent, env), view, env)
    decreases ws
  {
    if ws != [] {
      var last := |ws| - 1;
      ListWidens(ws[..last], parent, view, env);
      if StatusOf(ws[last], parent, env) == Full {
        ErasureWidens(ws[last], parent, view, env);
        AppendMember(EraseAll(ws[..last], parent, env), Erase(ws[last], parent, env), view, env);
      }
    }
  }

  /** Where every member survives, so does the one that holds. */
  lemma {:induction false} ChoicesWiden(ws: seq<Where>, parent: string, view: View, env: Env)
    requires AllKeepChoices(ws, parent, env) && AnyHolds(ws, view, env)
    requires AllSucceed(ws, parent, env) && !AnyEnds(Empty, ws, parent, env)
    ensures AnyHolds(EraseAll(ws, parent, env), view, env)
    decreases ws
  {
    var (front, last) := (ws[..|ws| - 1], ws[|ws| - 1]);
    assert ws == front + [last];
    MemberEnds(Empty, front, last, parent, env);
    assert StatusOf(ws[|ws| - 1], parent, env) == Full;
    AppendMember(front, last, view, env);
    AppendMember(EraseAll(front, parent, env), Erase(last, parent, env), view, env);
    if Holds(last, view, env) {
      ErasureWidens(last, parent, view, env);
    } else {
      ChoicesWiden(front, parent, view, env);
    }
  }

  // ----- main theorem -----

  lemma ErasedCompiles(r: Outcome, w: Where, env: Env)
    requires Compiled(r, w, "", env) && r.Success?
    ensures Compiled(Success(r.query, []), Erase(w, "", env), "", env)
  {
    SameQueries(w, "", env, r.query);
  }

  /** The query of a successful call is that of the erased tree: the server accepts it
      exactly when it takes the operands that are left, and it then means exactly what is
      left when these are plain. Where no choice is lost, every document the whole tree
      holds of is matched. */
  lemma ErasedMeaning(r: Outcome, w: Where, env: Env)
    requires Placed(w, env) && Compiled(r, w, "", env) && r.Success?
    ensures Shaped(Erase(w, "", env), env)
    ensures Accepted(r.query) <==> Taken(Erase(w, "", env), env)
    ensures Plain(Erase(w, "", env), env) ==>
              forall d, view :: Shows(view, d, env) ==>
                (Matches(r.query, d, env) <==> Holds(Erase(w, "", env), view, env))
    ensures Plain(Erase(w, "", env), env) && KeepsChoices(w, "", env) ==>
              forall d, view :: Shows(view, d, env) && Holds(w, view, env) ==> Matches(r.query, d, env)
  {
    var (e, plainly) := (Erase(w, "", env), Success(r.query, []));
    ErasedShaped(w, "", env);
    ErasedCompiles(r, w, env);
    AcceptedIffTaken(plainly, e, env);
    if Plain(e, env) {
      CompilerCorrect(plainly, e, env);
      if KeepsChoices(w, "", env) {
        forall d, view | Shows(view, d, env) && Holds(w, view, env) ensures Matches(r.query, d, env) {
          ErasureWidens(w, "", view, env);
        }
      }
    }
  }
}
