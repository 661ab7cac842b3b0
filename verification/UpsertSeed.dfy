/** What an upsert that finds nothing starts from: the equalities of its query. The server
    collects them from the top level, through `$and` and through an `$or` of one member, takes
    an `$in` of one value for an equality, and refuses a name that is fixed twice or lies below
    another one. */
module UpsertSeed {
  import opened Wrappers
  import opened Lbq
  import opened Mongo
  import opened FieldResolution
  import opened WhereCompiler
  import opened CompilerShape
  import opened CompilerAcceptance
  import opened CompilerCorrectness

  /** A list of one value, however often, leaves no choice. */
  function OnlyValue(items: seq<Value>): seq<Value> {
    if items != [] && forall i | 0 <= i < |items| :: Same(items[i], items[0]) then [items[0]] else []
  }

  function OnlyItem(v: Value): seq<Value> { OnlyValue(ItemsOf(v)) }

  /** The values a condition on a field fixes it to. */
  function EqualitiesOf(v: MVal): seq<Value> {
    match v
    case Lit(x) =>
      var sent := Wire(x);
      if !DollarDoc(sent) then [sent]
      else
        (if "$eq" in sent.m then [sent.m["$eq"]] else [])
        + if "$in" in sent.m then OnlyItem(sent.m["$in"]) else []
    case Doc(ops) => FixedBy(ops, OpEq) + FixedBy(ops, OpIn)
    case _ => []
  }

  function FixedBy(ops: Query, op: QueryKey): seq<Value> {
    if op in ops.m && ops.m[op].Lit? then
      var sent := Wire(ops.m[op].v);
      if op.OpIn? then OnlyItem(sent) else [sent]
    else []
  }

  function Own(q: Query, name: string): seq<Value> {
    if Stored(name) in q.m then EqualitiesOf(q.m[Stored(name)]) else []
  }

  /** All values the query fixes a name to. */
  function Equalities(q: Query, name: string): seq<Value>
    decreases q, 1
  {
    Own(q, name) + InGroup(q, OpAnd, name) + InGroup(q, OpOr, name)
  }

  function InGroup(q: Query, op: QueryKey, name: string): seq<Value>
    decreases q, 0
  {
    if op in q.m && q.m[op].List? && (op.OpOr? ==> |q.m[op].qs| == 1) then EqualitiesIn(q.m[op].qs, name) else []
  }

  function EqualitiesIn(qs: seq<Query>, name: string): seq<Value>
    decreases qs
  {
    if qs == [] then [] else EqualitiesIn(qs[..|qs| - 1], name) + Equalities(qs[|qs| - 1], name)
  }

  /** The field names a query mentions, members of lists included. */
  function Names(q: Query): set<string>
    decreases q, 0
  {
    (set k | k in q.m && k.Stored? :: k.name)
    + (if OpAnd in q.m && q.m[OpAnd].List? then NamesIn(q.m[OpAnd].qs) else {})
    + if OpOr in q.m && q.m[OpOr].List? then NamesIn(q.m[OpOr].qs) else {}
  }

  function NamesIn(qs: seq<Query>): set<string>
    decreases qs
  {
    if qs == [] then {} else NamesIn(qs[..|qs| - 1]) + Names(qs[|qs| - 1])
  }

  lemma {:induction false} FixedIsMentioned(q: Query, name: string)
    requires name !in Names(q)
    ensures Equalities(q, name) == []
    decreases q
  {
    if OpAnd in q.m && q.m[OpAnd].List? {
      FixedAreMentioned(q.m[OpAnd].qs, name);
    }
    if OpOr in q.m && q.m[OpOr].List? {
      FixedAreMentioned(q.m[OpOr].qs, name);
    }
  }

  lemma {:induction false} FixedAreMentioned(qs: seq<Query>, name: string)
    requires name !in NamesIn(qs)
    ensures EqualitiesIn(qs, name) == []
    decreases qs
  {
    if qs != [] {
      FixedAreMentioned(qs[..|qs| - 1], name);
      FixedIsMentioned(qs[|qs| - 1], name);
    }
  }

  /** The names that are given a value. */
  function Fixed(q: Query): set<string> { set name | name in Names(q) && Equalities(q, name) != [] }

  function Seed(q: Query): Option<Document> {
    if exists name <- Fixed(q) :: |Equalities(q, name)| > 1 then None
    else if exists name <- Fixed(q), other <- Fixed(q) :: name != other && Ancestor(name, other) then None
    else Some(map name | name in Fixed(q) :: Equalities(q, name)[0])
  }

  /** The seed holds a value for a name exactly when the query fixes it to that value. */
  lemma SeedHolds(q: Query, name: string)
    requires Seed(q).Some?
    ensures Lookup(Seed(q).value, name) == if Equalities(q, name) == [] then None else Some(Equalities(q, name)[0])
    ensures |Equalities(q, name)| <= 1
  {
    if name !in Names(q) {
      FixedIsMentioned(q, name);
    }
    assert name in Fixed(q) || Equalities(q, name) == [];
  }

  predicate FixedTwice(q: Query, name: string) { |Equalities(q, name)| > 1 }

  predicate FixedBelow(q: Query, name: string, other: string) {
    name != other && Equalities(q, name) != [] && Equalities(q, other) != [] && Ancestor(name, other)
  }

  lemma FixedIs(q: Query, name: string)
    ensures name in Fixed(q) <==> Equalities(q, name) != []
  {
    if name !in Names(q) { FixedIsMentioned(q, name); }
  }

  /** There is a seed exactly when no name is fixed twice and none lies below another. */
  lemma SeedIff(q: Query)
    ensures Seed(q).Some? <==>
            (forall name :: !FixedTwice(q, name)) && forall name, other :: !FixedBelow(q, name, other)
  {
    var fixed := Fixed(q);
    var twice := exists name <- fixed :: |Equalities(q, name)| > 1;
    var below := exists name <- fixed, other <- fixed :: name != other && Ancestor(name, other);
    assert Seed(q).Some? <==> !twice && !below;
    assert twice <==> exists name :: FixedTwice(q, name) by {
      if name :| FixedTwice(q, name) { FixedIs(q, name); }
      if twice {
        var name :| name in fixed && |Equalities(q, name)| > 1;
        assert FixedTwice(q, name);
      }
    }
    assert below <==> exists name, other :: FixedBelow(q, name, other) by {
      if name, other :| FixedBelow(q, name, other) { FixedIs(q, name); FixedIs(q, other); }
      if below {
        var name, other :| name in fixed && other in fixed && name != other && Ancestor(name, other);
        assert FixedBelow(q, name, other);
      }
    }
  }

  // ----- equalities of a `where` -----

  /** The key is for the stored name. */
  predicate IsFor(w: Where, k: Key, name: string, env: Env) {
    k in w.m && Declared(k, env) && env.fields[Text(k)].bsonName == name
  }

  /** The values a key asks for: one bound to it, the operand of an `eq`, or the one value of
      an `inq`. */
  function AskedValues(f: Field, n: Node, env: Env): seq<Value> {
    match n
    case Atom(v) => [Typed(f, v, env)]
    case Sub(ops) => if Special(ops) then [] else AskedBy(f, ops, Eq, env) + AskedBy(f, ops, Inq, env)
    case Group(_) => []
  }

  function AskedBy(f: Field, ops: Where, op: Key, env: Env): seq<Value> {
    if op in ops.m && ops.m[op].Atom? then
      if op.Inq? then OnlyValue(ElementsOf(f, ops.m[op].v, env)) else [Typed(f, ops.m[op].v, env)]
    else []
  }

  ghost function OwnAsked(w: Where, name: string, env: Env): seq<Value> {
    if exists k :: IsFor(w, k, name, env) then
      var k :| IsFor(w, k, name, env);
      AskedValues(env.fields[Text(k)], w.m[k], env)
    else []
  }

  /** All values the tree asks for under a stored name, members of an `and` and the one
      member of an `or` included. */
  ghost function Asked(w: Where, name: string, env: Env): seq<Value>
    decreases w, 1
  {
    OwnAsked(w, name, env) + AskedInGroup(w, And, name, env) + AskedInGroup(w, Or, name, env)
  }

  ghost function AskedInGroup(w: Where, op: Key, name: string, env: Env): seq<Value>
    decreases w, 0
  {
    if op in w.m && w.m[op].Group? && (op.Or? ==> |w.m[op].ws| == 1) then AskedIn(w.m[op].ws, name, env) else []
  }

  ghost function AskedIn(ws: seq<Where>, name: string, env: Env): seq<Value>
    decreases ws
  {
    if ws == [] then [] else AskedIn(ws[..|ws| - 1], name, env) + Asked(ws[|ws| - 1], name, env)
  }

  lemma OneAsker(w: Where, k: Key, name: string, env: Env)
    requires DistinctNames(w, env) && IsFor(w, k, name, env)
    ensures OwnAsked(w, name, env) == AskedValues(env.fields[Text(k)], w.m[k], env)
  {
    forall k' | IsFor(w, k', name, env) ensures k' == k {
      assert k in w.m.Keys && k' in w.m.Keys;
    }
  }

  /** A compiled query fixes a name to exactly the values the tree asks for. */
  lemma {:induction false} FixesWhatIsAsked(q: Query, w: Where, parent: string, name: string, env: Env)
    requires WellScoped(w, env) && IsQuery(q, w, parent, env)
    ensures Equalities(q, name) == Asked(w, name, env)
    decreases w, 1
  {
    OwnIsAsked(q, w, parent, name, env);
    MembersAreAsked(q, w, And, parent, name, env);
    MembersAreAsked(q, w, Or, parent, name, env);
    SumsAgree(q, w, name, env);
  }

  ghost predicate GroupAgrees(q: Query, w: Where, k: Key, name: string, env: Env)
    requires k.And? || k.Or?
  {
    InGroup(q, OperatorOf(k).value, name) == AskedInGroup(w, k, name, env)
  }

  lemma SumsAgree(q: Query, w: Where, name: string, env: Env)
    requires Own(q, name) == OwnAsked(w, name, env)
    requires GroupAgrees(q, w, And, name, env) && GroupAgrees(q, w, Or, name, env)
    ensures Equalities(q, name) == Asked(w, name, env)
  {}

  /** As many queries as members where none of these is empty. */
  lemma {:induction false} ListSize(qs: seq<Query>, ws: seq<Where>, parent: string, env: Env)
    requires AllWellScoped(ws, env) && IsList(qs, ws, parent, env) && NoneEmpty(ws)
    ensures |qs| == |ws|
    decreases ws
  {
    if ws != [] {
      ListEnds(qs, ws, parent, env);
      ListSize(qs[..|qs| - 1], ws[..|ws| - 1], parent, env);
    }
  }

  lemma GroupList(v: MVal, k: Key, n: Node, parent: string, env: Env)
    requires k.And? || k.Or?
    requires ShapedEntry(k, n, env) && PlainEntry(k, n, env) && IsEntry(v, k, n, parent, env)
    ensures n.Group? && v.List? && AllWellScoped(n.ws, env) && IsList(v.qs, n.ws, parent, env)
    ensures NameOf(k, n, parent, env) == OperatorOf(k).value
    ensures k.Or? ==> |v.qs| == |n.ws|
  {
    EntryName(k, n, parent, env);
    AllWellScopedIs(n.ws, env);
    if k.Or? { ListSize(v.qs, n.ws, parent, env); }
  }

  lemma GroupEntry(q: Query, w: Where, k: Key, parent: string, env: Env)
    requires WellScoped(w, env) && IsQuery(q, w, parent, env) && (k.And? || k.Or?) && k in w.m
    ensures w.m[k].Group? && OperatorOf(k).value in q.m && q.m[OperatorOf(k).value].List?
    ensures AllWellScoped(w.m[k].ws, env) && IsList(q.m[OperatorOf(k).value].qs, w.m[k].ws, parent, env)
    ensures k.Or? ==> |q.m[OpOr].qs| == |w.m[k].ws|
  {
    assert ShapedEntry(k, w.m[k], env) && PlainEntry(k, w.m[k], env);
    OwnEntry(q, w, k, parent, env);
    GroupList(q.m[NameOf(k, w.m[k], parent, env)], k, w.m[k], parent, env);
  }

  lemma {:induction false} MembersAreAsked(q: Query, w: Where, k: Key, parent: string, name: string, env: Env)
    requires WellScoped(w, env) && IsQuery(q, w, parent, env) && (k.And? || k.Or?)
    ensures GroupAgrees(q, w, k, name, env)
    decreases w, 0
  {
    if k in w.m {
      GroupEntry(q, w, k, parent, env);
      ListFixes(q.m[OperatorOf(k).value].qs, w.m[k].ws, parent, name, env);
    } else {
      NoGroup(q, w, k, parent, env);
    }
  }

  lemma OnlyGroups(k: Key, n: Node, op: Key, parent: string, env: Env)
    requires op.And? || op.Or?
    requires ShapedEntry(k, n, env) && NameOf(k, n, parent, env) == OperatorOf(op).value
    ensures k == op
  {
    EntryName(k, n, parent, env);
  }

  lemma NoGroup(q: Query, w: Where, op: Key, parent: string, env: Env)
    requires op.And? || op.Or?
    requires Shaped(w, env) && IsQuery(q, w, parent, env) && op !in w.m
    ensures OperatorOf(op).value !in q.m
  {
    NotSpecial(w, env);
    if OperatorOf(op).value in q.m {
      var k := SourceOf(q, w, OperatorOf(op).value, parent, env);
      OnlyGroups(k, w.m[k], op, parent, env);
    }
  }

  lemma OwnIsAsked(q: Query, w: Where, parent: string, name: string, env: Env)
    requires WellScoped(w, env) && IsQuery(q, w, parent, env)
    ensures Own(q, name) == OwnAsked(w, name, env)
  {
    NotSpecial(w, env);
    if k :| IsFor(w, k, name, env) {
      OneAsker(w, k, name, env);
      assert ShapedEntry(k, w.m[k], env) && PlainEntry(k, w.m[k], env);
      OwnEntry(q, w, k, parent, env);
      EntryFixes(q.m[NameOf(k, w.m[k], parent, env)], w, k, parent, env);
    } else if Stored(name) in q.m {
      var k := SourceOf(q, w, Stored(name), parent, env);
      assert ShapedEntry(k, w.m[k], env) && PlainEntry(k, w.m[k], env);
      StoredEntry(w, k, parent, name, env);
      assert false;
    }
  }

  /** Only a declared key is stored under a name. */
  lemma StoredEntry(w: Where, k: Key, parent: string, name: string, env: Env)
    requires k in w.m && ShapedEntry(k, w.m[k], env) && NameOf(k, w.m[k], parent, env) == Stored(name)
    ensures IsFor(w, k, name, env)
  {
    EntryName(k, w.m[k], parent, env);
  }

  /** What the entry of a declared key fixes. */
  lemma EntryFixes(v: MVal, w: Where, k: Key, parent: string, env: Env)
    requires k in w.m && Declared(k, env) && ShapedEntry(k, w.m[k], env) && PlainEntry(k, w.m[k], env)
    requires IsEntry(v, k, w.m[k], parent, env)
    ensures NameOf(k, w.m[k], parent, env) == Stored(env.fields[Text(k)].bsonName)
    ensures EqualitiesOf(v) == AskedValues(env.fields[Text(k)], w.m[k], env)
  {
    EntryName(k, w.m[k], parent, env);
    DeclaredField(k, env);
    match w.m[k]
    case Atom(x) =>
      ConvertedOperand(env.fields[Text(k)], k, x, env);
      PlainOperand(env.fields[Text(k)], k, x, env);
    case Sub(ops) => OpsFix(v.q, ops, Text(k), env);
    case Group(_) =>
  }

  lemma OpsFix(q: Query, ops: Where, path: string, env: Env)
    requires path in env.fields && ShapedOps(ops, env.fields[path], env) && PlainOps(ops, env.fields[path])
    requires IsQuery(q, ops, path, env)
    ensures EqualitiesOf(Doc(q)) == AskedValues(env.fields[path], Sub(ops), env)
  {
    EachOpFixes(q, ops, Eq, path, env.fields[path], env);
    EachOpFixes(q, ops, Inq, path, env.fields[path], env);
    OperatorsSum(q, ops, env.fields[path], env);
  }

  predicate FixesAsAsked(q: Query, ops: Where, op: Key, f: Field, env: Env)
    requires op.Eq? || op.Inq?
  {
    FixedBy(q, OperatorOf(op).value) == if Special(ops) then [] else AskedBy(f, ops, op, env)
  }

  lemma EachOpFixes(q: Query, ops: Where, op: Key, path: string, f: Field, env: Env)
    requires path in env.fields && f == env.fields[path] && ShapedOps(ops, f, env) && PlainOps(ops, f)
    requires IsQuery(q, ops, path, env) && (op.Eq? || op.Inq?)
    ensures FixesAsAsked(q, ops, op, f, env)
  {
    if Special(ops) {
      SpecialFixesNothing(q, ops, path, env);
    } else {
      OpFixes(q, ops, op, path, env);
    }
  }

  lemma OperatorsSum(q: Query, ops: Where, f: Field, env: Env)
    requires FixesAsAsked(q, ops, Eq, f, env) && FixesAsAsked(q, ops, Inq, f, env)
    ensures EqualitiesOf(Doc(q)) == AskedValues(f, Sub(ops), env)
  {}

  lemma SpecialFixesNothing(q: Query, ops: Where, path: string, env: Env)
    requires Special(ops) && IsQuery(q, ops, path, env)
    ensures FixedBy(q, OpEq) == [] && FixedBy(q, OpIn) == []
  {}

  lemma OpFixes(q: Query, ops: Where, op: Key, path: string, env: Env)
    requires path in env.fields && ShapedOps(ops, env.fields[path], env) && PlainOps(ops, env.fields[path])
    requires IsQuery(q, ops, path, env) && !Special(ops) && (op.Eq? || op.Inq?)
    ensures FixedBy(q, OperatorOf(op).value) == AskedBy(env.fields[path], ops, op, env)
  {
    var (f, name) := (env.fields[path], OperatorOf(op).value);
    OpIsThere(q, ops, op, name, path, f, env);
    if op in ops.m {
      OperandFixes(f, op, ops.m[op].v, env);
    }
  }

  lemma OpIsThere(q: Query, ops: Where, op: Key, name: QueryKey, path: string, f: Field, env: Env)
    requires ShapedOps(ops, f, env) && PlainOps(ops, f) && Resolve(path, env.fields) == Some(f)
    requires IsQuery(q, ops, path, env) && !Special(ops) && OperatorOf(op) == Some(name)
    ensures op in ops.m <==> name in q.m
    ensures op in ops.m ==>
              && ops.m[op].Atom? && Convert(f, op, ops.m[op].v, env).Some?
              && q.m[name] == Lit(Convert(f, op, ops.m[op].v, env).value)
              && NilFree(ops.m[op].v) && TakenArgument(f, op, ops.m[op].v)
  {
    if op in ops.m {
      ComparatorEnds(ops, op, path, f, env);
      OpEntry(q, ops, op, path, f, env);
    } else if name in q.m {
      var from := ComparisonSource(q, ops, name, path, f, env);
    }
  }

  lemma OperandFixes(f: Field, op: Key, v: Value, env: Env)
    requires (op.Eq? || op.Inq?) && Convert(f, op, v, env).Some? && NilFree(v) && TakenArgument(f, op, v)
    ensures var sent := Wire(Convert(f, op, v, env).value);
            if op.Inq? then OnlyItem(sent) == OnlyValue(ElementsOf(f, v, env)) else sent == Typed(f, v, env)
  {
    if op.Inq? { ConvertedList(f, op, v, env); } else { ConvertedOperand(f, op, v, env); }
  }

  lemma {:induction false} ListFixes(qs: seq<Query>, ws: seq<Where>, parent: string, name: string, env: Env)
    requires AllWellScoped(ws, env) && IsList(qs, ws, parent, env)
    ensures EqualitiesIn(qs, name) == AskedIn(ws, name, env)
    decreases ws
  {
    if ws != [] {
      var (front, last) := (ws[..|ws| - 1], ws[|ws| - 1]);
      ListEnds(qs, ws, parent, env);
      if last.m == map[] {
        ListFixes(qs, front, parent, name, env);
        assert Asked(last, name, env) == [];
      } else {
        ListFixes(qs[..|qs| - 1], front, parent, name, env);
        FixesWhatIsAsked(qs[|qs| - 1], last, parent, name, env);
      }
    }
  }

  lemma ListEnds(qs: seq<Query>, ws: seq<Where>, parent: string, env: Env)
    requires AllWellScoped(ws, env) && IsList(qs, ws, parent, env) && ws != []
    ensures var (front, last) := (ws[..|ws| - 1], ws[|ws| - 1]);
            && WellScoped(last, env) && AllWellScoped(front, env)
            && (last.m == map[] ==> IsList(qs, front, parent, env))
            && (last.m != map[] ==>
                  qs != [] && IsQuery(qs[|qs| - 1], last, parent, env) && IsList(qs[..|qs| - 1], front, parent, env))
  {
    var (front, last) := (ws[..|ws| - 1], ws[|ws| - 1]);
    assert ws == front + [last];
    LastMember(qs, front, last, parent, env);
  }
}
