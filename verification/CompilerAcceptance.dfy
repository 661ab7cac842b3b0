/** Which compiled queries the server accepts: over shaped trees, exactly those whose
    operands it takes. Compiling checks no operand, so this is left to the caller. */
module CompilerAcceptance {
  import opened Wrappers
  import opened Lbq
  import opened Mongo
  import opened FieldResolution
  import opened WhereCompiler
  import opened CompilerShape

  // ----- operands the server takes -----

  predicate Coerced(f: Field) { f.dataType == DT_OBJECT_ID || f.dataType == DT_DATE }

  /** A list operand is a slice that is not nil once converted, and holds no operators. */
  predicate TakenArgument(f: Field, k: Key, v: Value) {
    k.Inq? || k.Nin? ==>
      && v.Slice? && (Coerced(f) ==> v.items != [])
      && forall i | 0 <= i < |v.items| :: !DollarDoc(v.items[i])
  }

  /** A pattern and its options are strings. */
  predicate TakenPattern(pattern: Node, options: Value) {
    pattern.Atom? && pattern.v.Str? && (options.Null? || options.Str?)
  }

  predicate TakenOps(ops: Where, f: Field) {
    if Like in ops.m then TakenPattern(ops.m[Like], OptionsOf(ops))
    else if NLike in ops.m then TakenPattern(ops.m[NLike], OptionsOf(ops))
    else forall k <- ops.m.Keys :: ops.m[k].Atom? && TakenArgument(f, k, ops.m[k].v)
  }

  /** The server takes every operand of the tree. */
  ghost predicate Taken(w: Where, env: Env)
    decreases w
  {
    forall k :: k in w.m ==> TakenEntry(k, w.m[k], env)
  }

  ghost predicate TakenEntry(k: Key, n: Node, env: Env)
    decreases n
  {
    match n
    case Atom(v) => AcceptedOperand(Wire(v))
    case Sub(ops) => Declared(k, env) && TakenOps(ops, env.fields[Text(k)])
    case Group(ws) => AllTaken(ws, env)
  }

  ghost predicate AllTaken(ws: seq<Where>, env: Env)
    decreases ws
  {
    forall i :: 0 <= i < |ws| ==> Taken(ws[i], env)
  }

  lemma DollarStays(v: Value)
    ensures DollarDoc(Wire(v)) <==> DollarDoc(v)
  {
    if v.Subdocument? {
      assert Wire(v).m.Keys == v.m.Keys;
    }
  }

  /** What conversion makes of ids and dates is no document. */
  lemma CoercedIsNoDocument(f: Field, k: Key, v: Value, env: Env)
    requires Coerced(f) && Convert(f, k, v, env).Some?
    ensures !DollarDoc(v) && !DollarDoc(Convert(f, k, v, env).value)
    ensures (k.Inq? || k.Nin?) && v.Slice? ==> forall i | 0 <= i < |v.items| :: !DollarDoc(v.items[i])
  {
    if (k.Inq? || k.Nin?) && v.Slice? {
      forall i | 0 <= i < |v.items| ensures !v.items[i].Subdocument? {
        var convert := x => if f.dataType == DT_OBJECT_ID then ToObjectId(x, env) else ToInstant(x, env);
        assert convert(v.items[i]).Some?;
      }
    }
  }

  lemma CoercedList(f: Field, k: Key, v: Value, env: Env)
    requires Coerced(f) && (k.Inq? || k.Nin?) && Convert(f, k, v, env).Some?
    ensures IsSlice(v)
    ensures var c := Convert(f, k, v, env).value;
            if ItemsOf(v) == [] then c.NilSlice? else c.Slice? && |c.items| == |v.items|
    ensures forall i | 0 <= i < |ItemsOf(Convert(f, k, v, env).value)| ::
              !ItemsOf(Convert(f, k, v, env).value)[i].Subdocument?
  {}

  lemma WireList(v: Value)
    ensures Wire(v).Slice? <==> v.Slice?
    ensures v.Slice? ==> |Wire(v).items| == |v.items|
    ensures v.Slice? ==> forall i | 0 <= i < |v.items| :: DollarDoc(Wire(v).items[i]) <==> DollarDoc(v.items[i])
  {
    if v.Slice? {
      forall i | 0 <= i < |v.items| ensures DollarDoc(Wire(v).items[i]) <==> DollarDoc(v.items[i]) {
        DollarStays(v.items[i]);
      }
    }
  }

  /** The server takes a converted argument exactly when the argument is as it should be. */
  lemma TakenIsAccepted(f: Field, k: Key, v: Value, env: Env)
    requires IsComparator(k) && Convert(f, k, v, env).Some?
    ensures AcceptedLit(OperatorOf(k).value, Wire(Convert(f, k, v, env).value)) <==> TakenArgument(f, k, v)
  {
    if k.Inq? || k.Nin? {
      TakenListIsAccepted(f, k, v, env);
    }
  }

  lemma TakenListIsAccepted(f: Field, k: Key, v: Value, env: Env)
    requires (k.Inq? || k.Nin?) && Convert(f, k, v, env).Some?
    ensures AcceptedLit(OperatorOf(k).value, Wire(Convert(f, k, v, env).value)) <==> TakenArgument(f, k, v)
  {
    WireList(Convert(f, k, v, env).value);
    if Coerced(f) {
      TakenIdsAreAccepted(f, k, v, env);
    }
  }

  lemma TakenIdsAreAccepted(f: Field, k: Key, v: Value, env: Env)
    requires Coerced(f) && (k.Inq? || k.Nin?) && Convert(f, k, v, env).Some?
    ensures var c := Convert(f, k, v, env).value;
            c.Slice? && (forall i | 0 <= i < |c.items| :: !DollarDoc(c.items[i])) <==> TakenArgument(f, k, v)
  {
    CoercedList(f, k, v, env);
    if v.Slice? {
      CoercedIsNoDocument(f, k, v, env);
    }
  }

  // ----- operator objects -----

  lemma ComparisonAccepted(q: Query, ops: Where, op: Key, path: string, f: Field, env: Env)
    requires ShapedOps(ops, f, env) && !Special(ops) && Resolve(path, env.fields) == Some(f)
    requires IsQuery(q, ops, path, env) && op in ops.m
    ensures OperatorOf(op).Some? && OperatorOf(op).value in q.m
    ensures AcceptedOp(OperatorOf(op).value, q.m[OperatorOf(op).value]) <==> TakenArgument(f, op, ops.m[op].v)
  {
    ComparatorEnds(ops, op, path, f, env);
    OpEntry(q, ops, op, path, f, env);
    TakenIsAccepted(f, op, ops.m[op].v, env);
  }

  lemma ComparisonsAccepted(q: Query, ops: Where, path: string, f: Field, env: Env)
    requires ShapedOps(ops, f, env) && !Special(ops) && Resolve(path, env.fields) == Some(f)
    requires IsQuery(q, ops, path, env)
    ensures AcceptedOps(q) <==> TakenOps(ops, f)
  {
    if AcceptedOps(q) {
      forall op | op in ops.m ensures TakenArgument(f, op, ops.m[op].v) {
        ComparisonAccepted(q, ops, op, path, f, env);
      }
    }
    if TakenOps(ops, f) {
      TakenOpsAccepted(q, ops, path, f, env);
    }
  }

  lemma TakenOpsAccepted(q: Query, ops: Where, path: string, f: Field, env: Env)
    requires ShapedOps(ops, f, env) && !Special(ops) && Resolve(path, env.fields) == Some(f)
    requires IsQuery(q, ops, path, env) && TakenOps(ops, f)
    ensures AcceptedOps(q)
  {
    forall name | name in q.m ensures name != OpOptions && AcceptedOp(name, q.m[name]) {
      TakenOpAccepted(q, ops, name, path, f, env);
    }
    var some :| some in ops.m;
    ComparisonAccepted(q, ops, some, path, f, env);
  }

  lemma TakenOpAccepted(q: Query, ops: Where, name: QueryKey, path: string, f: Field, env: Env)
    requires ShapedOps(ops, f, env) && !Special(ops) && Resolve(path, env.fields) == Some(f)
    requires IsQuery(q, ops, path, env) && TakenOps(ops, f) && name in q.m
    ensures name != OpOptions && AcceptedOp(name, q.m[name])
  {
    var op := ComparisonSource(q, ops, name, path, f, env);
    ComparisonAccepted(q, ops, op, path, f, env);
  }

  lemma PatternAccepted(q: Query, pattern: Value, options: Value)
    requires {OpRegex} <= q.m.Keys <= {OpRegex, OpOptions} && q.m[OpRegex] == Lit(pattern)
    requires OpOptions in q.m <==> !options.Null?
    requires OpOptions in q.m ==> q.m[OpOptions] == Lit(options)
    ensures AcceptedOps(q) <==> TakenPattern(Atom(pattern), options)
  {
    assert AcceptedOp(OpRegex, q.m[OpRegex]) <==> pattern.Str?;
    assert OpOptions in q.m ==> (AcceptedOp(OpOptions, q.m[OpOptions]) <==> options.Str?);
  }

  lemma OpsAccepted(q: Query, ops: Where, path: string, env: Env)
    requires path in env.fields && ShapedOps(ops, env.fields[path], env) && IsQuery(q, ops, path, env)
    ensures AcceptedOps(q) <==> TakenOps(ops, env.fields[path])
  {
    if Like in ops.m {
      PatternAccepted(q, ops.m[Like].v, OptionsOf(ops));
    } else if NLike in ops.m {
      assert q.m.Keys == {OpNot} && q.m[OpNot].Doc?;
      PatternAccepted(q.m[OpNot].q, ops.m[NLike].v, OptionsOf(ops));
      assert AcceptedOps(q) <==> AcceptedOp(OpNot, q.m[OpNot]);
    } else if Exists in ops.m {
      assert q.m == map[OpExists := Lit(ops.m[Exists].v)];
      assert AcceptedOp(OpExists, q.m[OpExists]);
      assert TakenOps(ops, env.fields[path]);
    } else {
      ComparisonsAccepted(q, ops, path, env.fields[path], env);
    }
  }

  // ----- where objects -----

  /** The server accepts a query of a shaped tree exactly when it takes every operand. */
  lemma {:induction false} ObjectAccepted(q: Query, w: Where, parent: string, env: Env)
    requires Shaped(w, env) && IsQuery(q, w, parent, env)
    ensures Accepted(q) <==> Taken(w, env)
    decreases w
  {
    forall k | k in w.m
      ensures var name := NameOf(k, w.m[k], parent, env);
              name in q.m && (AcceptedEntry(name, q.m[name]) <==> TakenEntry(k, w.m[k], env))
    {
      assert ShapedEntry(k, w.m[k], env);
      OwnEntry(q, w, k, parent, env);
      EntryAccepted(q.m[NameOf(k, w.m[k], parent, env)], k, w.m[k], parent, env);
    }
    ShapedEnds(w, parent, env);
    NotSpecial(w, env);
    forall name | name in q.m ensures exists k :: k in w.m && NameOf(k, w.m[k], parent, env) == name {
      var from := SourceOf(q, w, name, parent, env);
    }
    if Accepted(q) {
      forall k | k in w.m ensures TakenEntry(k, w.m[k], env) {
        assert AcceptedEntry(NameOf(k, w.m[k], parent, env), q.m[NameOf(k, w.m[k], parent, env)]);
      }
    }
  }

  lemma {:induction false} EntryAccepted(v: MVal, k: Key, n: Node, parent: string, env: Env)
    requires ShapedEntry(k, n, env) && IsEntry(v, k, n, parent, env)
    ensures AcceptedEntry(NameOf(k, n, parent, env), v) <==> TakenEntry(k, n, env)
    decreases n
  {
    EntryName(k, n, parent, env);
    match n
    case Atom(x) =>
      DeclaredField(k, env);
      OperandAccepted(env.fields[Text(k)], k, x, env);
    case Sub(ops) =>
      DeclaredField(k, env);
      OpsAccepted(v.q, ops, Text(k), env);
    case Group(ws) =>
      ListAccepted(v.qs, ws, parent, env);
  }

  lemma OperandAccepted(f: Field, k: Key, v: Value, env: Env)
    requires (k.Path? || k.Options?) && Convert(f, k, v, env).Some?
    ensures AcceptedOperand(Wire(Convert(f, k, v, env).value)) <==> AcceptedOperand(Wire(v))
  {
    if Coerced(f) {
      CoercedIsNoDocument(f, k, v, env);
      DollarStays(v);
      DollarStays(Convert(f, k, v, env).value);
    }
  }

  lemma {:induction false} ListAccepted(qs: seq<Query>, ws: seq<Where>, parent: string, env: Env)
    requires AllShaped(ws, env) && IsList(qs, ws, parent, env)
    ensures AllAccepted(qs) <==> AllTaken(ws, env)
    ensures SomeFilled(ws) ==> qs != []
    decreases ws
  {
    if ws != [] {
      var (front, last) := (ws[..|ws| - 1], ws[|ws| - 1]);
      assert ws == front + [last];
      SplitTaken(front, last, env);
      SplitFilled(front, last);
      LastMember(qs, front, last, parent, env);
      if last.m == map[] {
        ListAccepted(qs, front, parent, env);
      } else {
        var end := |qs| - 1;
        SplitAccepted(qs[..end], qs[end]);
        ListAccepted(qs[..end], front, parent, env);
        ObjectAccepted(qs[end], last, parent, env);
      }
    }
  }

  lemma SplitTaken(front: seq<Where>, last: Where, env: Env)
    ensures AllTaken(front + [last], env) <==> AllTaken(front, env) && Taken(last, env)
  {
    var all := front + [last];
    assert all[|front|] == last && forall i :: 0 <= i < |front| ==> all[i] == front[i];
  }

  lemma SplitAccepted(qs: seq<Query>, q: Query)
    ensures AllAccepted(qs + [q]) <==> AllAccepted(qs) && Accepted(q)
  {
    var all := qs + [q];
    assert all[|qs|] == q && forall i :: 0 <= i < |qs| ==> all[i] == qs[i];
  }

  /** A shaped tree always compiles without warnings, but the server accepts the query
      exactly when it takes every operand of the tree. */
  lemma AcceptedIffTaken(r: Outcome, w: Where, env: Env)
    requires Shaped(w, env) && Compiled(r, w, "", env)
    ensures r.Success? && r.warnings == []
    ensures Accepted(r.query) <==> Taken(w, env)
  {
    ShapedEnds(w, "", env);
    SomeElement(r.warnings);
    ObjectAccepted(r.query, w, "", env);
  }
}
