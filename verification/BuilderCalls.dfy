/** What single builder calls say, when an expression over builders fails, and what each part
    of a merged filter comes from. */
module BuilderCalls {
  import opened Wrappers
  import opened Strings
  import opened Lbq
  import opened WhereBuilders
  import F = FilterBuilders
  import RepositoryQuery

  // ----- conditions -----

  /** Bound directly or under `eq`, a value says the same. */
  lemma StrictnessIsIrrelevant(field: string, v: Value, view: View, env: Env)
    ensures Holds(Where(map[Lex(field) := Atom(v)]), view, env) <==>
            Holds(Where(map[Lex(field) := Sub(Where(map[Eq := Atom(v)]))]), view, env)
  {
    var ops := Where(map[Eq := Atom(v)]);
    EntryHolds(Lex(field), Atom(v), view, env);
    EntryHolds(Lex(field), Sub(ops), view, env);
    OperatorHolds(Eq, v, FieldAt(field, env), Lookup(view, field), env);
    LexIsInjective(field);
  }

  lemma EntryHolds(k: Key, n: Node, view: View, env: Env)
    ensures Holds(Where(map[k := n]), view, env) <==> HoldsEntry(k, n, view, env)
  {
    var w := Where(map[k := n]);
    assert w.m[k] == n;
  }

  lemma OperatorHolds(op: Key, v: Value, f: Field, x: Option<Value>, env: Env)
    requires !op.Like? && !op.NLike?
    ensures HoldsOps(Where(map[op := Atom(v)]), f, x, env) <==> Test(op, f, v, x, env)
  {
    var ops := Where(map[op := Atom(v)]);
    assert HoldsOps(ops, f, x, env) <==> Test(op, f, ops.m[op].v, x, env);
  }

  /** A range says that the value lies between its ends, which belong to it unless it is
      exclusive. */
  lemma RangeMeans(field: string, min: Value, max: Value, exclusive: bool, view: View, env: Env)
    ensures var (f, x) := (FieldAt(field, env), Lookup(view, field));
            var (low, high) := (Typed(f, min, env), Typed(f, max, env));
            Holds(Range(field, Atom(min), Atom(max), exclusive), view, env) <==>
            && (Above(x, low) || (!exclusive && Equals(x, low)))
            && (Below(x, high) || (!exclusive && Equals(x, high)))
  {
    var (k, f, x) := (Lex(field), FieldAt(field, env), Lookup(view, field));
    var (lower, upper) := (if exclusive then Gt else Gte, if exclusive then Lt else Lte);
    var low := Where(map[k := Sub(Where(map[lower := Atom(min)]))]);
    var high := Where(map[k := Sub(Where(map[upper := Atom(max)]))]);
    LexIsInjective(field);
    EntryHolds(And, Group([low, high]), view, env);
    F.PairMeans(low, high, view, env);
    EntryHolds(k, Sub(Where(map[lower := Atom(min)])), view, env);
    EntryHolds(k, Sub(Where(map[upper := Atom(max)])), view, env);
    OperatorHolds(lower, min, f, x, env);
    OperatorHolds(upper, max, f, x, env);
  }

  /** A pattern says that the value is there and matches it under the options. */
  lemma PatternMeans(field: string, pattern: string, options: Option<string>, view: View, env: Env)
    ensures var flags := if options.Some? then Str(options.value) else Null;
            Holds(Where(map[Lex(field) := Sub(Pattern(pattern, options))]), view, env) <==>
            field in view && env.regex(Str(pattern), flags, view[field])
  {
    var ops := Pattern(pattern, options);
    LexIsInjective(field);
    EntryHolds(Lex(field), Sub(ops), view, env);
    assert OptionsOf(ops) == if options.Some? then Str(options.value) else Null;
    assert HoldsOps(ops, FieldAt(field, env), Lookup(view, field), env) <==>
           Likes(ops.m[Like].v, OptionsOf(ops), Lookup(view, field), env);
  }

  /** A condition is added unless an error came before, there is nothing in it or its field has
      no name; each of the last two is an error. */
  lemma ConditionIsAdded(s: State, field: string, w: Where)
    ensures var r := AddAtField(s, field, w);
            && (r.err.None? <==> s.err.None? && w.m != map[] && !Blank(field))
            && r.conditions == (if r.err.None? then s.conditions + [w] else s.conditions)
            && (Blank(field) ==> r.err == Some("FILTER_FIELD_EMPTY"))
            && (s.err.Some? && !Blank(field) ==> r.err == s.err)
  {}

  /** A name of white space alone is no name. */
  lemma {:induction false} BlankIsTrimmed(s: string)
    ensures Blank(s) <==> TrimSpace(s) == ""
    decreases |s|
  {
    if s != [] {
      if IsSpace(s[0]) {
        BlankIsTrimmed(s[1..]);
        assert s == [s[0]] + s[1..];
      } else if IsSpace(s[|s| - 1]) {
        BlankIsTrimmed(s[..|s| - 1]);
      }
    }
  }

  // ----- sub-builders -----

  /** The two lists come to the same for Or and for And. */
  predicate Alike(a: seq<Built>, b: seq<Built>, err: Option<string>) {
    NonEmptyTrees(a) == NonEmptyTrees(b) && LastError(a, err) == LastError(b, err) && FlattenAll(a) == FlattenAll(b)
  }

  lemma OneMoreSub(a: seq<Built>, b: seq<Built>, last: Built, err: Option<string>)
    requires Alike(a, b, err)
    ensures Alike(a + [last], b + [last], err)
  {
    assert (a + [last])[..|a|] == a && (b + [last])[..|b|] == b;
  }

  lemma {:induction false} EmptyTreesAreLeftOut(front: seq<Built>, rest: seq<Built>, err: Option<string>)
    ensures Alike(front + [Tree(EMPTY)] + rest, front + rest, err)
    decreases |rest|
  {
    if rest == [] {
      EmptyAtTheEnd(front, err);
      assert front + [Tree(EMPTY)] + rest == front + [Tree(EMPTY)] && front + rest == front;
    } else {
      var (others, last) := (rest[..|rest| - 1], rest[|rest| - 1]);
      var (a, b) := (front + [Tree(EMPTY)] + others, front + others);
      assert front + [Tree(EMPTY)] + rest == a + [last] && front + rest == b + [last];
      EmptyTreesAreLeftOut(front, others, err);
      OneMoreSub(a, b, last, err);
    }
  }

  lemma EmptyAtTheEnd(front: seq<Built>, err: Option<string>)
    ensures Alike(front + [Tree(EMPTY)], front, err)
  {
    assert (front + [Tree(EMPTY)])[..|front|] == front;
    assert FlattenAll(front).0 + Flattened(EMPTY) == FlattenAll(front).0;
  }

  /** A sub-builder without conditions makes no difference to Or or And. */
  lemma EmptyIsIgnored(s: State, front: seq<Built>, rest: seq<Built>)
    ensures AddOr(s, front + [Tree(EMPTY)] + rest) == AddOr(s, front + rest)
    ensures AddAnd(s, front + [Tree(EMPTY)] + rest) == AddAnd(s, front + rest)
  {
    EmptyTreesAreLeftOut(front, rest, s.err);
  }

  /** Of several errors Or reports the last, and And the first. */
  lemma WhichErrorIsReported(s: State, front: seq<Built>, e: string, rest: seq<Built>)
    ensures (forall b <- rest :: b.Tree?) ==> AddOr(s, front + [Failed(e)] + rest).err == Some(e)
    ensures (forall b <- front :: b.Tree?) ==> AddAnd(s, front + [Failed(e)] + rest).err == Some(e)
  {
    ErrorStays(s.err, front, e, rest);
  }

  lemma {:induction false} ErrorStays(err: Option<string>, front: seq<Built>, e: string, rest: seq<Built>)
    ensures (forall b <- rest :: b.Tree?) ==> LastError(front + [Failed(e)] + rest, err) == Some(e)
    ensures (forall b <- front :: b.Tree?) ==> FlattenAll(front + [Failed(e)] + rest).1 == Some(e)
    decreases |rest|
  {
    var (all, end) := (front + [Failed(e)] + rest, |rest| - 1);
    if rest == [] {
      assert all == front + [Failed(e)] && all[..|all| - 1] == front;
    } else {
      ErrorStays(err, front, e, rest[..end]);
      assert (forall b <- rest :: b.Tree?) ==> rest[end].Tree? && forall b <- rest[..end] :: b.Tree?;
      assert all[..|all| - 1] == front + [Failed(e)] + rest[..end] && all[|all| - 1] == rest[end];
    }
  }

  /** Some condition in it is empty, at whatever depth. */
  ghost predicate Broken(e: Expr)
    decreases e, 0
  {
    SomeBroken(e.calls)
  }

  ghost predicate SomeBroken(calls: seq<Call>)
    decreases calls
  {
    exists i :: 0 <= i < |calls| && BrokenCall(calls[i])
  }

  ghost predicate BrokenCall(c: Call)
    decreases c
  {
    match c
    case Cond(w) => w.m == map[]
    case OrOf(subs) => AnyBroken(subs)
    case AndOf(subs) => AnyBroken(subs)
  }

  ghost predicate AnyBroken(subs: seq<Expr>)
    decreases subs
  {
    exists i :: 0 <= i < |subs| && Broken(subs[i])
  }

  /** Building an expression fails exactly when it is broken somewhere. */
  lemma {:induction false} FailsIffBroken(e: Expr)
    ensures BuildOf(Run(e)).Failed? <==> Broken(e)
    decreases e, 0
  {
    CallsFailIff(e.calls);
  }

  lemma {:induction false} CallsFailIff(calls: seq<Call>)
    ensures RunCalls(calls).err.Some? <==> SomeBroken(calls)
    decreases calls
  {
    if calls != [] {
      var (front, last) := (calls[..|calls| - 1], calls[|calls| - 1]);
      CallsFailIff(front);
      CallFailsIff(RunCalls(front), last);
      assert SomeBroken(calls) <==> SomeBroken(front) || BrokenCall(last) by {
        assert calls == front + [last];
        if SomeBroken(front) {
          var i :| 0 <= i < |front| && BrokenCall(front[i]);
          assert calls[i] == front[i];
        }
        if BrokenCall(last) { assert calls[|front|] == last; }
      }
    }
  }

  lemma {:induction false} CallFailsIff(s: State, c: Call)
    ensures RunCall(s, c).err.Some? <==> s.err.Some? || BrokenCall(c)
    decreases c
  {
    match c
    case Cond(_) =>
    case OrOf(subs) => SubsFailIff(subs, s.err);
    case AndOf(subs) => SubsFailIff(subs, s.err);
  }

  lemma {:induction false} SubsFailIff(subs: seq<Expr>, err: Option<string>)
    ensures LastError(RunSubs(subs), err).Some? <==> err.Some? || AnyBroken(subs)
    ensures FlattenAll(RunSubs(subs)).1.Some? <==> AnyBroken(subs)
    decreases subs
  {
    forall i | 0 <= i < |subs| ensures RunSubs(subs)[i].Failed? <==> Broken(subs[i]) {
      FailsIffBroken(subs[i]);
    }
    AnyFailed(RunSubs(subs), err);
  }

  lemma {:induction false} AnyFailed(subs: seq<Built>, err: Option<string>)
    ensures LastError(subs, err).Some? <==> err.Some? || exists i :: 0 <= i < |subs| && subs[i].Failed?
    decreases |subs|
  {
    if subs != [] {
      AnyFailed(subs[..|subs| - 1], err);
      assert subs == subs[..|subs| - 1] + [subs[|subs| - 1]];
    }
  }

  // ----- merged filters -----

  /** Apart from the id, a projection names only fields to return or only fields to leave out. */
  lemma ProjectionsAreOneSided(m: map<string, bool>)
    ensures F.ValidProjection(m) <==>
            (forall k | k in m && k != "_id" :: m[k]) || (forall k | k in m && k != "_id" :: !m[k])
  {}

  /** A filter with nothing in it changes nothing, on either side. */
  lemma NothingIsNeutral(c: F.Contents, config: F.MergeConfig)
    requires c.err.None?
    ensures F.Merged(c, F.NOTHING, config) == c
    ensures F.ValidProjection(c.fields) && config.maxLimit.None? ==> F.Merged(F.NOTHING, c, config) == c
  {
    assert c.includes + [] == c.includes && [] + c.includes == c.includes;
    var none: map<string, bool> := map[];
    assert none + c.fields == c.fields && F.NOTHING.fields == none;
  }

  /** A merge fails when either side has failed, and otherwise when the other side names fields
      that may not contradict this side and do, or that do not go with this side's. */
  lemma MergeFailsIff(a: F.Contents, b: F.Contents, config: F.MergeConfig)
    ensures F.Merged(a, b, config).err.Some? <==>
            || a.err.Some? || b.err.Some?
            || (!config.allowFieldConflicts && exists k :: k in a.fields && k in b.fields && a.fields[k] != b.fields[k])
            || (b.fields != map[] && !F.ValidProjection(a.fields + b.fields))
  {
    assert F.Conflict(a.fields, b.fields) <==>
        exists k :: k in a.fields && k in b.fields && a.fields[k] != b.fields[k];
  }

  /** The lesser of a limit and its cap. */
  predicate Capped(limit: nat, cap: Option<nat>, r: Option<nat>) {
    && r.Some? && r.value <= limit && (cap.Some? ==> r.value <= cap.value)
    && (r == Some(limit) || r == cap)
  }

  /** The other side's limit counts as far as it is allowed, its fields, its skip and its order
      come before this side's, and its includes are added to them. */
  lemma OtherSideComesFirst(a: F.Contents, b: F.Contents, config: F.MergeConfig, k: string)
    requires F.Merged(a, b, config).err.None?
    ensures var r := F.Merged(a, b, config);
            && (if k in b.fields then k in r.fields && r.fields[k] == b.fields[k]
                else (k in r.fields <==> k in a.fields) && (k in a.fields ==> r.fields[k] == a.fields[k]))
            && (b.limit.None? ==> r.limit == a.limit)
            && (b.limit.Some? ==> Capped(b.limit.value, config.maxLimit, r.limit))
            && (b.skip.Some? ==> r.skip == b.skip) && (b.skip.None? ==> r.skip == a.skip)
            && (b.order != [] ==> r.order == b.order) && (b.order == [] ==> r.order == a.order)
            && a.includes <= r.includes && r.includes[|a.includes|..] == b.includes
  {}

  /** Without a configuration both sides must hold, no field may contradict another, and the other
      side's limit counts in full. */
  lemma DefaultMerge(a: F.Contents, b: F.Contents, view: View, env: Env, k: string)
    requires a.err.None? && b.err.None?
    ensures var r := F.Merged(a, b, F.DEFAULT_MERGE);
            && (AllHold(r.where, view, env) <==> AllHold(a.where, view, env) && AllHold(b.where, view, env))
            && (k in a.fields && k in b.fields && a.fields[k] != b.fields[k] ==> r.err.Some?)
            && (r.err.None? && b.limit.Some? ==> r.limit == b.limit)
  {
    if a.where != [] && b.where != [] {
      F.MergedWhereMeans(a.where, b.where, false, view, env);
    }
  }

  /** A builder asks the server for a limit, or to skip documents, exactly where it was told to with a
      number greater than zero. */
  lemma ToldLimits(builder: F.FilterBuilder, n: nat)
    ensures var f := builder.AsFilter();
            && (RepositoryQuery.NonZero(f.limit) == Some(n) <==> builder.limit == Some(n) && n > 0)
            && (RepositoryQuery.NonZero(f.skip) == Some(n) <==> builder.skip == Some(n) && n > 0)
  {}
}
