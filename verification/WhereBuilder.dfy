/** Assembling a `where` tree from builder calls, and what the result means. */
module WhereBuilders {
  import opened Wrappers
  import opened Strings
  import opened Lbq

  const FIELD_EMPTY := "FILTER_FIELD_EMPTY"
  const WHERE_CANNOT_BE_NIL := "FILTER_WHERE_CANNOT_BE_NIL"
  const RAW_EMPTY := "raw where condition cannot be empty"

  predicate Blank(s: string) { forall i :: 0 <= i < |s| ==> IsSpace(s[i]) }

  /** The outcome of a Build call. */
  datatype Built = Tree(w: Where) | Failed(err: string)

  /** A builder's state. */
  datatype State = State(conditions: seq<Where>, err: Option<string>)

  const NEW := State([], None)

  function Conjunction(conditions: seq<Where>): Where {
    if conditions == [] then EMPTY
    else if |conditions| == 1 then conditions[0]
    else Where(map[And := Group(conditions)])
  }

  function BuildOf(s: State): Built {
    if s.err.Some? then Failed(s.err.value) else Tree(Conjunction(s.conditions))
  }

  function AddRaw(s: State, w: Where): State {
    if s.err.Some? then s
    else if w.m == map[] then s.(err := Some(RAW_EMPTY))
    else s.(conditions := s.conditions + [w])
  }

  function AddAtField(s: State, field: string, w: Where): State {
    if Blank(field) then s.(err := Some(FIELD_EMPTY)) else AddRaw(s, w)
  }

  // ----- or -----

  function NonEmptyTrees(subs: seq<Built>): seq<Where> {
    if subs == [] then []
    else
      var front := NonEmptyTrees(subs[..|subs| - 1]);
      var last := subs[|subs| - 1];
      if last.Tree? && last.w.m != map[] then front + [last.w] else front
  }

  function LastError(subs: seq<Built>, err: Option<string>): Option<string> {
    if subs == [] then err
    else if subs[|subs| - 1].Failed? then Some(subs[|subs| - 1].err)
    else LastError(subs[..|subs| - 1], err)
  }

  function AddOr(s: State, subs: seq<Built>): State {
    var ors := NonEmptyTrees(subs);
    State(if ors == [] then s.conditions else s.conditions + [Where(map[Or := Group(ors)])], LastError(subs, s.err))
  }

  /** An argument of Or: the builder itself, or another one with what it builds. */
  datatype Argument = Itself | Other(built: Built)

  /** What each argument builds when its turn comes: the builder itself fails with the
      error that earlier arguments have left it. */
  function Seen(s: State, subs: seq<Argument>): (built: seq<Built>)
    ensures |built| == |subs|
  {
    if subs == [] then []
    else
      var front := Seen(s, subs[..|subs| - 1]);
      var last := subs[|subs| - 1];
      front + [if last.Itself? then BuildOf(s.(err := LastError(front, s.err))) else last.built]
  }

  lemma {:induction false} SeenSoFar(s: State, subs: seq<Argument>, i: nat)
    requires i < |subs|
    ensures Seen(s, subs[..i + 1]) ==
            Seen(s, subs[..i])
            + [if subs[i].Itself? then BuildOf(s.(err := LastError(Seen(s, subs[..i]), s.err))) else subs[i].built]
  {
    assert subs[..i + 1][..i] == subs[..i];
  }

  // ----- and -----

  /** The members an already-built `and` contributes; its other keys are not looked at. */
  function Flattened(w: Where): seq<Where> {
    if And in w.m && w.m[And].Group? then w.m[And].ws
    else if w.m != map[] then [w]
    else []
  }

  /** The flattened members, or the first error. */
  function FlattenAll(subs: seq<Built>): (r: (seq<Where>, Option<string>))
    ensures r.1.None? <==> forall i :: 0 <= i < |subs| ==> subs[i].Tree?
  {
    if subs == [] then ([], None)
    else
      var front := FlattenAll(subs[..|subs| - 1]);
      var last := subs[|subs| - 1];
      if front.1.Some? then front
      else if last.Failed? then (front.0, Some(last.err))
      else (front.0 + Flattened(last.w), None)
  }

  function AddAnd(s: State, subs: seq<Built>): State {
    var flat := FlattenAll(subs);
    if flat.1.Some? then s.(err := flat.1)
    else if flat.0 == [] then s
    else s.(conditions := s.conditions + [Where(map[And := Group(flat.0)])])
  }

  // ----- the builder -----

  class WhereBuilder {
    var conditions: seq<Where>
    var err: Option<string>

    function Value(): State
      reads this
    {
      State(conditions, err)
    }

    constructor ()
      ensures Value() == NEW
    {
      conditions, err := [], None;
    }

    method Raw(w: Where)
      modifies this
      ensures Value() == AddRaw(old(Value()), w)
    {
      if err.Some? {
        return;
      }
      if w.m == map[] {
        err := Some(RAW_EMPTY);
        return;
      }
      conditions := conditions + [w];
    }

    method Eq(field: string, value: Node, strict: bool)
      modifies this
      ensures Value() == AddAtField(old(Value()), field,
                Where(map[Lex(field) := if strict then Sub(Where(map[Key.Eq := value])) else value]))
    {
      if Blank(field) {
        err := Some(FIELD_EMPTY);
        return;
      }
      if strict {
        Raw(Where(map[Lex(field) := Sub(Where(map[Key.Eq := value]))]));
        return;
      }
      Raw(Where(map[Lex(field) := value]));
    }

    /** Neq, In, Nin, Gt, Gte, Lt, Lte, IsNull and IsNotNull differ in the operator only. */
    method Compare(op: Key, field: string, value: Node)
      modifies this
      ensures Value() == AddAtField(old(Value()), field, Where(map[Lex(field) := Sub(Where(map[op := value]))]))
    {
      if Blank(field) {
        err := Some(FIELD_EMPTY);
        return;
      }
      Raw(Where(map[Lex(field) := Sub(Where(map[op := value]))]));
    }

    method Like(field: string, pattern: string, options: Option<string>)
      modifies this
      ensures Value() == AddAtField(old(Value()), field, Where(map[Lex(field) := Sub(Pattern(pattern, options))]))
    {
      if Blank(field) {
        err := Some(FIELD_EMPTY);
        return;
      }
      Raw(Where(map[Lex(field) := Sub(Pattern(pattern, options))]));
    }

    /** Between does not check its field. */
    method Between(field: string, min: Node, max: Node, exclusive: bool)
      modifies this
      ensures Value() == AddRaw(old(Value()), Range(field, min, max, exclusive))
    {
      Raw(Range(field, min, max, exclusive));
    }

    method Or(builders: seq<WhereBuilder?>)
      modifies this
      ensures Value() == AddOr(old(Value()), Seen(old(Value()), old(Arguments(this, builders))))
    {
      var ors: seq<Where> := [];
      ghost var (s, subs) := (Value(), Arguments(this, builders));
      for i := 0 to |builders|
        invariant conditions == s.conditions && Arguments(this, builders) == subs
        invariant ors == NonEmptyTrees(Seen(s, subs[..i])) && err == LastError(Seen(s, subs[..i]), s.err)
      {
        var sub := BuildOrNil(builders[i]);
        SeenSoFar(s, subs, i);
        assert Seen(s, subs[..i + 1]) == Seen(s, subs[..i]) + [sub];
        match sub {
          case Failed(e) => err := Some(e);
          case Tree(w) =>
            if w.m != map[] {
              ors := ors + [w];
            }
        }
      }
      assert subs[..|builders|] == subs;
      if ors != [] {
        conditions := conditions + [Where(map[Key.Or := Group(ors)])];
      }
    }

    method And(builders: seq<WhereBuilder?>)
      modifies this
      ensures Value() == AddAnd(old(Value()), old(BuildAll(builders)))
    {
      var flat: seq<Where> := [];
      ghost var subs := BuildAll(builders);
      for i := 0 to |builders|
        invariant Value() == old(Value())
        invariant FlattenAll(subs[..i]) == (flat, None)
      {
        var sub := BuildOrNil(builders[i]);
        assert subs[..i + 1][..i] == subs[..i] && subs[..i + 1][i] == sub;
        if sub.Failed? {
          FirstErrorStays(subs, i + 1);
          err := Some(sub.err);
          return;
        }
        flat := flat + Flattened(sub.w);
      }
      assert subs[..|builders|] == subs;
      if flat != [] {
        conditions := conditions + [Where(map[Key.And := Group(flat)])];
      }
    }

    method Build() returns (r: Built)
      ensures r == BuildOf(Value())
    {
      if err.Some? {
        return Failed(err.value);
      }
      match |conditions|
      case 0 => r := Tree(EMPTY);
      case 1 => r := Tree(conditions[0]);
      case _ => r := Tree(Where(map[Key.And := Group(conditions)]));
    }
  }

  function Pattern(pattern: string, options: Option<string>): Where {
    if options.Some? then Where(map[Key.Like := Atom(Str(pattern)), Options := Atom(Str(options.value))])
    else Where(map[Key.Like := Atom(Str(pattern))])
  }

  function Range(field: string, min: Node, max: Node, exclusive: bool): Where {
    var low := Where(map[(if exclusive then Gt else Gte) := min]);
    var high := Where(map[(if exclusive then Lt else Lte) := max]);
    Where(map[And := Group([Where(map[Lex(field) := Sub(low)]), Where(map[Lex(field) := Sub(high)])])])
  }

  /** Building a nil builder is an error. */
  function BuildNullable(b: WhereBuilder?): Built
    reads b
  {
    if b == null then Failed(WHERE_CANNOT_BE_NIL) else BuildOf(b.Value())
  }

  function BuildAll(bs: seq<WhereBuilder?>): seq<Built>
    reads bs
  {
    seq(|bs|, i requires 0 <= i < |bs| reads bs => BuildNullable(bs[i]))
  }

  function Arguments(self: WhereBuilder, bs: seq<WhereBuilder?>): seq<Argument>
    reads bs
  {
    seq(|bs|, i requires 0 <= i < |bs| reads bs =>
      if bs[i] == self then Itself else Other(BuildNullable(bs[i])))
  }

  method BuildOrNil(b: WhereBuilder?) returns (r: Built)
    ensures r == BuildNullable(b)
  {
    if b == null {
      return Failed(WHERE_CANNOT_BE_NIL);
    }
    r := b.Build();
  }

  lemma {:induction false} FirstErrorStays(subs: seq<Built>, i: nat)
    requires i <= |subs| && FlattenAll(subs[..i]).1.Some?
    ensures FlattenAll(subs).1 == FlattenAll(subs[..i]).1
    decreases |subs|
  {
    if i < |subs| {
      var front := subs[..|subs| - 1];
      assert front[..i] == subs[..i];
      FirstErrorStays(front, i);
    } else {
      assert subs[..i] == subs;
    }
  }

  // ----- what a built tree means -----

  lemma ConjunctionMeans(conditions: seq<Where>, view: View, env: Env)
    ensures Holds(Conjunction(conditions), view, env) <==> AllHold(conditions, view, env)
  {
    if |conditions| > 1 {
      var w := Conjunction(conditions);
      assert Holds(w, view, env) <==> HoldsEntry(And, w.m[And], view, env);
    }
  }

  /** An `and` with other keys beside it. */
  predicate HasAndSiblings(w: Where) { And in w.m && w.m[And].Group? && w.m.Keys != {And} }

  /** Without the builder itself among them, the arguments build what they build alone. */
  lemma {:induction false} OthersAreSeen(s: State, built: seq<Built>)
    ensures Seen(s, seq(|built|, i requires 0 <= i < |built| => Other(built[i]))) == built
    decreases |built|
  {
    if built != [] {
      var end := |built| - 1;
      var subs := seq(|built|, i requires 0 <= i < |built| => Other(built[i]));
      assert subs[..end] == seq(end, i requires 0 <= i < end => Other(built[..end][i]));
      OthersAreSeen(s, built[..end]);
    }
  }

  /** A builder may be passed to its own Or: that adds what it says already. */
  lemma OrWithItself(s: State, view: View, env: Env)
    requires s.err.None?
    ensures AddOr(s, Seen(s, [Itself])).err.None?
    ensures AllHold(AddOr(s, Seen(s, [Itself])).conditions, view, env) <==> AllHold(s.conditions, view, env)
  {
    var w := Conjunction(s.conditions);
    SeenAlone(s);
    TreeAlone(w);
    if w.m != map[] {
      ConjunctionMeans(s.conditions, view, env);
      OnlyOr(w, view, env);
      AppendMember(s.conditions, Where(map[Or := Group([w])]), view, env);
    }
  }

  lemma SeenAlone(s: State)
    ensures Seen(s, [Itself]) == [BuildOf(s)]
  {
    assert [Itself][..0] == [];
    assert Seen(s, []) == [];
  }

  lemma TreeAlone(w: Where)
    ensures NonEmptyTrees([Tree(w)]) == (if w.m != map[] then [w] else [])
    ensures LastError([Tree(w)], None).None?
  {
    assert [Tree(w)][..0] == [];
    assert NonEmptyTrees([]) == [];
  }

  lemma OnlyOr(w: Where, view: View, env: Env)
    ensures Holds(Where(map[Or := Group([w])]), view, env) <==> Holds(w, view, env)
  {
    var or := Where(map[Or := Group([w])]);
    assert Holds(or, view, env) <==> HoldsEntry(Or, or.m[Or], view, env);
    AppendMember([], w, view, env);
    assert [] + [w] == [w];
  }

  lemma FlattenedMeans(w: Where, view: View, env: Env)
    ensures Holds(w, view, env) ==> AllHold(Flattened(w), view, env)
    ensures !HasAndSiblings(w) ==> (AllHold(Flattened(w), view, env) <==> Holds(w, view, env))
  {
    if And in w.m && w.m[And].Group? {
      assert HoldsEntry(And, w.m[And], view, env) <==> AllHold(w.m[And].ws, view, env);
      assert Holds(w, view, env) ==> HoldsEntry(And, w.m[And], view, env);
      if w.m.Keys == {And} {
        assert Holds(w, view, env) <==> HoldsEntry(And, w.m[And], view, env);
      }
    } else {
      assert AllHold([w], view, env) <==> Holds(w, view, env) by {
        assert [w] == [] + [w];
        AppendMember([], w, view, env);
      }
    }
  }

  /** Flattening a tree whose `and` has siblings forgets what the siblings say. */
  lemma SiblingsOfAndAreForgotten(members: seq<Where>, k: Key, n: Node, view: View, env: Env)
    requires k != And && members != []
    ensures var w := Where(map[And := Group(members), k := n]);
            && HasAndSiblings(w)
            && AddAnd(NEW, [Tree(w)]) == State([Where(map[And := Group(members)])], None)
            && (Holds(w, view, env) <==> AllHold(members, view, env) && HoldsEntry(k, n, view, env))
  {
    var w := Where(map[And := Group(members), k := n]);
    assert w.m[And] == Group(members) && w.m[k] == n;
    assert k in w.m.Keys;
    var subs := [Tree(w)];
    assert subs[..0] == [] && FlattenAll(subs[..0]) == ([], None);
    assert [] + Flattened(w) == members;
    assert FlattenAll(subs) == (members, None);
    assert HoldsEntry(And, w.m[And], view, env) <==> AllHold(members, view, env);
    assert Holds(w, view, env) <==> HoldsEntry(And, w.m[And], view, env) && HoldsEntry(k, w.m[k], view, env);
  }

  lemma {:induction false} AppendAll(a: seq<Where>, b: seq<Where>, view: View, env: Env)
    ensures AllHold(a + b, view, env) <==> AllHold(a, view, env) && AllHold(b, view, env)
  {
    assert forall i :: 0 <= i < |b| ==> (a + b)[|a| + i] == b[i];
    assert forall i :: 0 <= i < |a| ==> (a + b)[i] == a[i];
  }

  // ----- expressions over builders -----

  /** A builder expression: the calls made on a fresh builder, sub-builders included. */
  datatype Expr = Expr(calls: seq<Call>)

  datatype Call = Cond(w: Where) | OrOf(subs: seq<Expr>) | AndOf(subs: seq<Expr>)

  function Run(e: Expr): State
    decreases e, 0
  {
    RunCalls(e.calls)
  }

  function RunCalls(calls: seq<Call>): State
    decreases calls
  {
    if calls == [] then NEW else RunCall(RunCalls(calls[..|calls| - 1]), calls[|calls| - 1])
  }

  function RunCall(s: State, c: Call): State
    decreases c
  {
    match c
    case Cond(w) => AddRaw(s, w)
    case OrOf(subs) => AddOr(s, RunSubs(subs))
    case AndOf(subs) => AddAnd(s, RunSubs(subs))
  }

  function RunSubs(subs: seq<Expr>): (r: seq<Built>)
    ensures |r| == |subs| && forall i :: 0 <= i < |r| ==> r[i] == BuildOf(Run(subs[i]))
    decreases subs
  {
    if subs == [] then []
    else RunSubs(subs[..|subs| - 1]) + [BuildOf(Run(subs[|subs| - 1]))]
  }

  /** What an expression says, call by call. */
  ghost predicate Says(e: Expr, view: View, env: Env)
    decreases e, 0
  {
    AllSaid(e.calls, view, env)
  }

  ghost predicate AllSaid(calls: seq<Call>, view: View, env: Env)
    decreases calls
  {
    forall i :: 0 <= i < |calls| ==> CallSays(calls[i], view, env)
  }

  ghost predicate CallSays(c: Call, view: View, env: Env)
    decreases c
  {
    match c
    case Cond(w) => Holds(w, view, env)
    case OrOf(subs) => AnySays(subs, view, env)
    case AndOf(subs) => EachSays(subs, view, env)
  }

  ghost predicate EachSays(subs: seq<Expr>, view: View, env: Env)
    decreases subs
  {
    forall i :: 0 <= i < |subs| ==> Says(subs[i], view, env)
  }

  ghost predicate AnySays(subs: seq<Expr>, view: View, env: Env)
    decreases subs
  {
    exists i :: 0 <= i < |subs| && Says(subs[i], view, env)
  }

  /** Calls without an error: every condition and every sub-builder adds something, and
      no condition is an `and` with siblings. */
  ghost predicate Clean(e: Expr)
    decreases e, 0
  {
    AllClean(e.calls)
  }

  ghost predicate AllClean(calls: seq<Call>)
    decreases calls
  {
    forall i :: 0 <= i < |calls| ==> CleanCall(calls[i])
  }

  ghost predicate CleanCall(c: Call)
    decreases c
  {
    match c
    case Cond(w) => Flattened(w) != [] && !HasAndSiblings(w)
    case OrOf(subs) => subs != [] && CleanSubs(subs)
    case AndOf(subs) => subs != [] && CleanSubs(subs)
  }

  ghost predicate CleanSubs(subs: seq<Expr>)
    decreases subs
  {
    forall i :: 0 <= i < |subs| ==> subs[i].calls != [] && Clean(subs[i])
  }

  /** Building is a homomorphism: the tree of a clean expression means what its calls say. */
  lemma {:induction false} BuildMeansCalls(e: Expr, view: View, env: Env)
    requires Clean(e)
    ensures BuildOf(Run(e)) == Tree(Conjunction(Run(e).conditions))
    ensures Holds(BuildOf(Run(e)).w, view, env) <==> Says(e, view, env)
    ensures e.calls != [] ==> Flattened(BuildOf(Run(e)).w) != [] && !HasAndSiblings(BuildOf(Run(e)).w)
    decreases e, 0
  {
    CallsMean(e.calls, view, env);
    var conditions := Run(e).conditions;
    ConjunctionMeans(conditions, view, env);
    if |conditions| > 1 {
      assert Conjunction(conditions).m[And] == Group(conditions);
    }
  }

  ghost predicate Sound(s: State, calls: seq<Call>, view: View, env: Env) {
    && s.err.None? && |s.conditions| == |calls|
    && (forall i :: 0 <= i < |s.conditions| ==> Flattened(s.conditions[i]) != [] && !HasAndSiblings(s.conditions[i]))
    && (AllHold(s.conditions, view, env) <==> AllSaid(calls, view, env))
  }

  lemma {:induction false} CallsMean(calls: seq<Call>, view: View, env: Env)
    requires AllClean(calls)
    ensures Sound(RunCalls(calls), calls, view, env)
    decreases calls
  {
    if calls != [] {
      var (front, last) := (calls[..|calls| - 1], calls[|calls| - 1]);
      assert calls == front + [last] && CleanCall(last);
      CallsMean(front, view, env);
      var before := RunCalls(front);
      var added := CallMeans(before, last, view, env);
      AppendSound(before, front, added, last, view, env);
      assert RunCalls(calls) == RunCall(before, last);
    }
  }

  lemma {:induction false} AppendSound(s: State, calls: seq<Call>, added: Where, c: Call, view: View, env: Env)
    requires Sound(s, calls, view, env)
    requires Flattened(added) != [] && !HasAndSiblings(added) && (Holds(added, view, env) <==> CallSays(c, view, env))
    ensures Sound(s.(conditions := s.conditions + [added]), calls + [c], view, env)
  {
    AppendMember(s.conditions, added, view, env);
    var all := calls + [c];
    assert all[|calls|] == c && forall i :: 0 <= i < |calls| ==> all[i] == calls[i];
  }

  /** A clean call adds one condition, which means what the call says. */
  lemma {:induction false} CallMeans(s: State, c: Call, view: View, env: Env) returns (added: Where)
    requires CleanCall(c) && s.err.None?
    ensures RunCall(s, c) == s.(conditions := s.conditions + [added])
    ensures Flattened(added) != [] && !HasAndSiblings(added)
    ensures Holds(added, view, env) <==> CallSays(c, view, env)
    decreases c
  {
    match c
    case Cond(w) => added := w;
    case OrOf(subs) => added := OrCallMeans(s, subs, view, env);
    case AndOf(subs) => added := AndCallMeans(s, subs, view, env);
  }

  lemma {:induction false} OrCallMeans(s: State, subs: seq<Expr>, view: View, env: Env) returns (added: Where)
    requires subs != [] && CleanSubs(subs) && s.err.None?
    ensures RunCall(s, OrOf(subs)) == s.(conditions := s.conditions + [added])
    ensures Flattened(added) != [] && !HasAndSiblings(added)
    ensures Holds(added, view, env) <==> AnySays(subs, view, env)
    decreases subs, 1
  {
    OrMeans(subs, view, env);
    added := Where(map[Or := Group(NonEmptyTrees(RunSubs(subs)))]);
    NoErrors(RunSubs(subs), s.err);
    assert Holds(added, view, env) <==> HoldsEntry(Or, added.m[Or], view, env);
  }

  lemma {:induction false} AndCallMeans(s: State, subs: seq<Expr>, view: View, env: Env) returns (added: Where)
    requires subs != [] && CleanSubs(subs) && s.err.None?
    ensures RunCall(s, AndOf(subs)) == s.(conditions := s.conditions + [added])
    ensures Flattened(added) != [] && !HasAndSiblings(added)
    ensures Holds(added, view, env) <==> EachSays(subs, view, env)
    decreases subs, 1
  {
    AndMeans(subs, view, env);
    added := Where(map[And := Group(FlattenAll(RunSubs(subs)).0)]);
    OnlyAnd(FlattenAll(RunSubs(subs)).0, view, env);
  }

  lemma OnlyAnd(ws: seq<Where>, view: View, env: Env)
    ensures var w := Where(map[And := Group(ws)]);
            Flattened(w) == ws && !HasAndSiblings(w) && (Holds(w, view, env) <==> AllHold(ws, view, env))
  {
    FlattenedMeans(Where(map[And := Group(ws)]), view, env);
  }

  lemma {:induction false} NoErrors(subs: seq<Built>, err: Option<string>)
    requires forall i :: 0 <= i < |subs| ==> subs[i].Tree?
    ensures LastError(subs, err) == err
    decreases |subs|
  {
    if subs != [] {
      NoErrors(subs[..|subs| - 1], err);
    }
  }

  lemma {:induction false} OrStep(subs: seq<Built>, w: Where, view: View, env: Env)
    requires w.m != map[]
    ensures (forall i :: 0 <= i < |subs| ==> subs[i].Tree?) ==>
              forall i :: 0 <= i <= |subs| ==> (subs + [Tree(w)])[i].Tree?
    ensures |NonEmptyTrees(subs + [Tree(w)])| == |NonEmptyTrees(subs)| + 1
    ensures AnyHolds(NonEmptyTrees(subs + [Tree(w)]), view, env) <==>
            AnyHolds(NonEmptyTrees(subs), view, env) || Holds(w, view, env)
  {
    assert (subs + [Tree(w)])[..|subs|] == subs;
    AppendMember(NonEmptyTrees(subs), w, view, env);
  }

  lemma {:induction false} AndStep(subs: seq<Built>, w: Where, view: View, env: Env)
    requires FlattenAll(subs).1.None? && Flattened(w) != [] && !HasAndSiblings(w)
    ensures FlattenAll(subs + [Tree(w)]).1.None? && FlattenAll(subs + [Tree(w)]).0 != []
    ensures AllHold(FlattenAll(subs + [Tree(w)]).0, view, env)
       <==> AllHold(FlattenAll(subs).0, view, env) && Holds(w, view, env)
  {
    assert (subs + [Tree(w)])[..|subs|] == subs;
    FlattenedMeans(w, view, env);
    AppendAll(FlattenAll(subs).0, Flattened(w), view, env);
  }

  lemma {:induction false} OrMeans(subs: seq<Expr>, view: View, env: Env)
    requires CleanSubs(subs)
    ensures forall i :: 0 <= i < |subs| ==> RunSubs(subs)[i].Tree?
    ensures |NonEmptyTrees(RunSubs(subs))| == |subs|
    ensures AnyHolds(NonEmptyTrees(RunSubs(subs)), view, env) <==> AnySays(subs, view, env)
    decreases subs, 0
  {
    if subs != [] {
      var (front, last) := (subs[..|subs| - 1], subs[|subs| - 1]);
      LastRun(subs);
      LastClean(subs);
      assert subs == front + [last];
      OrMeans(front, view, env);
      BuildMeansCalls(last, view, env);
      OrStep(RunSubs(front), BuildOf(Run(last)).w, view, env);
      AppendSays(front, last, view, env);
    }
  }

  lemma AppendSays(subs: seq<Expr>, e: Expr, view: View, env: Env)
    ensures AnySays(subs + [e], view, env) <==> AnySays(subs, view, env) || Says(e, view, env)
  {
    var all := subs + [e];
    assert all[|subs|] == e && forall i :: 0 <= i < |subs| ==> all[i] == subs[i];
  }

  lemma AppendEachSays(subs: seq<Expr>, e: Expr, view: View, env: Env)
    ensures EachSays(subs + [e], view, env) <==> EachSays(subs, view, env) && Says(e, view, env)
  {
    var all := subs + [e];
    assert all[|subs|] == e && forall i :: 0 <= i < |subs| ==> all[i] == subs[i];
  }

  lemma LastRun(subs: seq<Expr>)
    requires subs != []
    ensures RunSubs(subs) == RunSubs(subs[..|subs| - 1]) + [BuildOf(Run(subs[|subs| - 1]))]
  {}

  lemma LastClean(subs: seq<Expr>)
    requires subs != [] && CleanSubs(subs)
    ensures CleanSubs(subs[..|subs| - 1]) && Clean(subs[|subs| - 1]) && subs[|subs| - 1].calls != []
  {}

  lemma {:induction false} AndMeans(subs: seq<Expr>, view: View, env: Env)
    requires CleanSubs(subs)
    ensures FlattenAll(RunSubs(subs)).1.None?
    ensures subs != [] ==> FlattenAll(RunSubs(subs)).0 != []
    ensures AllHold(FlattenAll(RunSubs(subs)).0, view, env) <==> EachSays(subs, view, env)
    decreases subs, 0
  {
    if subs != [] {
      var (front, last) := (subs[..|subs| - 1], subs[|subs| - 1]);
      LastRun(subs);
      LastClean(subs);
      assert subs == front + [last];
      AndMeans(front, view, env);
      BuildMeansCalls(last, view, env);
      AndStep(RunSubs(front), BuildOf(Run(last)).w, view, env);
      AppendEachSays(front, last, view, env);
    }
  }
}
