/** `where` trees in which every key has its place and every operand a conversion: they
    always compile, and nothing of them is lost. */
module CompilerShape {
  import opened Wrappers
  import opened Lbq
  import opened Mongo
  import opened FieldResolution
  import opened WhereCompiler

  predicate IsComparator(k: Key) {
    k.Eq? || k.Neq? || k.Gt? || k.Gte? || k.Lt? || k.Lte? || k.Inq? || k.Nin?
  }

  /** An operator object that stands alone under a field: a pattern with its
      options, an existence test, or convertible comparisons. */
  predicate ShapedOps(ops: Where, f: Field, env: Env) {
    && ops.m != map[]
    && (forall k <- ops.m.Keys :: ops.m[k].Atom?)
    && if Like in ops.m then ops.m.Keys <= {Like, Options}
       else if NLike in ops.m then ops.m.Keys <= {NLike, Options}
       else if Exists in ops.m then ops.m.Keys == {Exists} && ops.m[Exists].v.Bool?
       else forall k <- ops.m.Keys :: IsComparator(k) && Convert(f, k, ops.m[k].v, env).Some?
  }

  /** A key that names a declared field and nothing else. The word `options` is read as such
      and may be a field's name, too. */
  predicate Declared(k: Key, env: Env) {
    && ((k.Path? && k != Path(Text(Options))) || k.Options?)
    && Text(k) in env.fields && !("$" <= env.fields[Text(k)].bsonName)
  }

  /** No two field keys of the object share a stored name. */
  predicate DistinctNames(w: Where, env: Env) {
    forall k <- w.m.Keys, k' <- w.m.Keys ::
      Declared(k, env) && Declared(k', env) && env.fields[Text(k)].bsonName == env.fields[Text(k')].bsonName ==> k == k'
  }

  /** Every key is in its place and every operand can be converted. */
  ghost predicate Shaped(w: Where, env: Env)
    decreases w
  {
    DistinctNames(w, env) && forall k :: k in w.m ==> ShapedEntry(k, w.m[k], env)
  }

  /** An `and` may hold empty members, which are dropped; an `or` may not. */
  ghost predicate ShapedEntry(k: Key, n: Node, env: Env)
    decreases n
  {
    match n
    case Atom(v) => Declared(k, env) && Convert(env.fields[Text(k)], k, v, env).Some?
    case Sub(ops) => Declared(k, env) && ShapedOps(ops, env.fields[Text(k)], env)
    case Group(ws) =>
      && (k.And? || k.Or?)
      && AllShaped(ws, env) && SomeFilled(ws)
      && (k.Or? ==> NoneEmpty(ws))
  }

  ghost predicate AllShaped(ws: seq<Where>, env: Env)
    decreases ws
  {
    forall i :: 0 <= i < |ws| ==> Shaped(ws[i], env)
  }

  predicate NoneEmpty(ws: seq<Where>) { forall i :: 0 <= i < |ws| ==> ws[i].m != map[] }

  predicate SomeFilled(ws: seq<Where>) { exists i :: 0 <= i < |ws| && ws[i].m != map[] }

  // ----- operator objects -----

  lemma DeclaredField(k: Key, env: Env)
    requires Declared(k, env)
    ensures forall parent :: FieldFor(k, parent, env) == Some(env.fields[Text(k)])
    ensures Visited(k, env)
  {}

  lemma ComparatorEnds(ops: Where, op: Key, path: string, f: Field, env: Env)
    requires ShapedOps(ops, f, env) && !Special(ops) && op in ops.m
    requires Resolve(path, env.fields) == Some(f)
    ensures IsComparator(op) && Convert(f, op, ops.m[op].v, env).Some?
    ensures EntryStatus(op, ops.m[op], path, env) == Full && EntryUnknown(op, ops.m[op], path, env) == {}
  {
    assert IsOperator(op) && !Skipped(op);
  }

  lemma OpsEnd(ops: Where, path: string, f: Field, env: Env)
    requires ShapedOps(ops, f, env) && Resolve(path, env.fields) == Some(f)
    ensures StatusOf(ops, path, env) == Full && UnknownFields(ops, path, env) == {}
  {
    if !Special(ops) {
      forall o | o in ops.m
        ensures EntryStatus(o, ops.m[o], path, env) == Full && EntryUnknown(o, ops.m[o], path, env) == {}
      {
        ComparatorEnds(ops, o, path, f, env);
      }
      AllFull(ops, path, env);
    }
  }

  /** A comparison compiles to exactly one operator, bound to its converted operand. */
  lemma OpEntry(q: Query, ops: Where, op: Key, path: string, f: Field, env: Env)
    requires ShapedOps(ops, f, env) && !Special(ops) && Resolve(path, env.fields) == Some(f)
    requires IsQuery(q, ops, path, env) && op in ops.m
    ensures OperatorOf(op).value in q.m && q.m[OperatorOf(op).value] == Lit(Convert(f, op, ops.m[op].v, env).value)
  {
    ComparatorEnds(ops, op, path, f, env);
    forall o | o in ops.m && NameOf(o, ops.m[o], path, env) == NameOf(op, ops.m[op], path, env) ensures o == op {
      ComparatorEnds(ops, o, path, f, env);
    }
    OwnsEntry(q, ops, op, path, env);
  }

  /** Every operator of the query comes from a comparison. */
  lemma ComparisonSource(q: Query, ops: Where, name: QueryKey, path: string, f: Field, env: Env) returns (op: Key)
    requires ShapedOps(ops, f, env) && !Special(ops) && Resolve(path, env.fields) == Some(f)
    requires IsQuery(q, ops, path, env) && name in q.m
    ensures op in ops.m && OperatorOf(op) == Some(name)
    ensures q.m[name] == Lit(Convert(f, op, ops.m[op].v, env).value)
  {
    op := SourceOf(q, ops, name, path, env);
    ComparatorEnds(ops, op, path, f, env);
    OpEntry(q, ops, op, path, f, env);
  }

  // ----- where objects -----

  lemma NotSpecial(w: Where, env: Env)
    requires Shaped(w, env)
    ensures !Special(w) && WHERE_CLAUSE !in w.m
  {
    forall k | k in w.m ensures !k.Exists? && !k.Like? && !k.NLike? && !k.Dollar? {
      assert ShapedEntry(k, w.m[k], env);
    }
  }

  /** A shaped tree compiles without a panic, an error or a warning, and loses nothing. */
  lemma {:induction false} ShapedEnds(w: Where, parent: string, env: Env)
    requires Shaped(w, env)
    ensures StatusOf(w, parent, env) == (if w.m == map[] then Empty else Full)
    ensures UnknownFields(w, parent, env) == {}
    ensures forall k :: k in w.m ==> Emits(k, w.m[k], parent, env)
    decreases w
  {
    forall k | k in w.m
      ensures EntryStatus(k, w.m[k], parent, env) == Full && EntryUnknown(k, w.m[k], parent, env) == {}
    {
      EntryEnds(k, w.m[k], parent, env);
    }
    NotSpecial(w, env);
    AllFull(w, parent, env);
  }

  lemma {:induction false} EntryEnds(k: Key, n: Node, parent: string, env: Env)
    requires ShapedEntry(k, n, env)
    ensures EntryStatus(k, n, parent, env) == Full && EntryUnknown(k, n, parent, env) == {}
    decreases n
  {
    match n
    case Atom(v) => DeclaredField(k, env);
    case Sub(ops) =>
      DeclaredField(k, env);
      OpsEnd(ops, Text(k), env.fields[Text(k)], env);
    case Group(ws) =>
      forall i | 0 <= i < |ws|
        ensures StatusOf(ws[i], parent, env) == (if ws[i].m == map[] then Empty else Full)
        ensures UnknownFields(ws[i], parent, env) == {}
      {
        ShapedEnds(ws[i], parent, env);
      }
      GroupEnds(ws, parent, env);
  }

  lemma GroupEnds(ws: seq<Where>, parent: string, env: Env)
    requires SomeFilled(ws)
    requires forall i :: 0 <= i < |ws| ==> StatusOf(ws[i], parent, env) == (if ws[i].m == map[] then Empty else Full)
    requires forall i :: 0 <= i < |ws| ==> UnknownFields(ws[i], parent, env) == {}
    ensures GroupStatus(ws, parent, env) == Full && UnknownIn(ws, parent, env) == {}
  {
    var i :| 0 <= i < |ws| && ws[i].m != map[];
    assert StatusOf(ws[i], parent, env) == Full;
  }

  lemma EntryName(k: Key, n: Node, parent: string, env: Env)
    requires ShapedEntry(k, n, env)
    ensures n.Group? ==> OperatorOf(k).Some?
    ensures NameOf(k, n, parent, env) ==
            if n.Group? then OperatorOf(k).value else Stored(env.fields[Text(k)].bsonName)
  {
    if !n.Group? {
      DeclaredField(k, env);
    }
  }

  lemma NamesDiffer(w: Where, k: Key, k': Key, parent: string, env: Env)
    requires DistinctNames(w, env) && k in w.m && k' in w.m
    requires ShapedEntry(k, w.m[k], env) && ShapedEntry(k', w.m[k'], env)
    requires NameOf(k, w.m[k], parent, env) == NameOf(k', w.m[k'], parent, env)
    ensures k == k'
  {
    EntryName(k, w.m[k], parent, env);
    EntryName(k', w.m[k'], parent, env);
  }

  /** Each key of a shaped object owns one entry of the query. */
  lemma OwnEntry(q: Query, w: Where, k: Key, parent: string, env: Env)
    requires Shaped(w, env) && IsQuery(q, w, parent, env) && k in w.m
    ensures NameOf(k, w.m[k], parent, env) in q.m
    ensures IsEntry(q.m[NameOf(k, w.m[k], parent, env)], k, w.m[k], parent, env)
  {
    ShapedEnds(w, parent, env);
    NotSpecial(w, env);
    assert ShapedEntry(k, w.m[k], env);
    forall k' | k' in w.m && NameOf(k', w.m[k'], parent, env) == NameOf(k, w.m[k], parent, env) ensures k' == k {
      assert ShapedEntry(k', w.m[k'], env);
      NamesDiffer(w, k, k', parent, env);
    }
    OwnsEntry(q, w, k, parent, env);
  }

  lemma SplitShaped(front: seq<Where>, last: Where, env: Env)
    ensures AllShaped(front + [last], env) <==> AllShaped(front, env) && Shaped(last, env)
  {
    var all := front + [last];
    assert all[|front|] == last && forall i :: 0 <= i < |front| ==> all[i] == front[i];
  }

  lemma SplitFilled(front: seq<Where>, last: Where)
    ensures NoneEmpty(front + [last]) <==> NoneEmpty(front) && last.m != map[]
    ensures SomeFilled(front + [last]) <==> SomeFilled(front) || last.m != map[]
  {
    var all := front + [last];
    assert all[|front|] == last && forall i :: 0 <= i < |front| ==> all[i] == front[i];
  }

  /** The last query of a list belongs to the last member, unless that is empty. */
  lemma LastMember(qs: seq<Query>, front: seq<Where>, last: Where, parent: string, env: Env)
    requires Shaped(last, env) && IsList(qs, front + [last], parent, env)
    ensures last.m == map[] ==> IsList(qs, front, parent, env)
    ensures last.m != map[] ==>
              && qs != [] && qs == qs[..|qs| - 1] + [qs[|qs| - 1]]
              && IsQuery(qs[|qs| - 1], last, parent, env) && IsList(qs[..|qs| - 1], front, parent, env)
  {
    assert (front + [last])[..|front|] == front;
    ShapedEnds(last, parent, env);
  }
}
