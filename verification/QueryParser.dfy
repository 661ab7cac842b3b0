/** Reading a `where` clause from a JSON tree. Text-level JSON parsing is not part of
    this model; the members of an object keep their order and may repeat a key. */
module QueryParser {
  import opened Wrappers
  import opened Lbq
  import opened FieldResolution
  import opened WhereCompiler
  import opened CompilerSafety

  datatype Json =
    | JNull
    | JBool(b: bool)
    | JNum(n: real)
    | JStr(s: string)
    | JArr(items: seq<Json>)
    | JObj(members: seq<Member>)

  /** Keys are kept as `Lex` reads them, which loses nothing. */
  datatype Member = Member(key: Key, value: Json)

  /** The value of the first member with key k. */
  function Get(ms: seq<Member>, k: Key): Option<Json> { GetFrom(ms, k, 0) }

  function GetFrom(ms: seq<Member>, k: Key, i: nat): Option<Json>
    requires i <= |ms|
    decreases |ms| - i
  {
    if i == |ms| then None else if ms[i].key == k then Some(ms[i].value) else GetFrom(ms, k, i + 1)
  }

  lemma GetByKey(ms: seq<Member>, k: Key)
    ensures Get(ms, k).None? <==> !HasKey(ms, k)
    ensures DistinctKeys(ms) ==> forall i :: 0 <= i < |ms| && ms[i].key == k ==> Get(ms, k) == Some(ms[i].value)
  {
    GetFromByKey(ms, k, 0);
  }

  lemma {:induction false} GetFromByKey(ms: seq<Member>, k: Key, i: nat)
    requires i <= |ms|
    ensures GetFrom(ms, k, i).None? <==> forall l :: i <= l < |ms| ==> ms[l].key != k
    ensures DistinctKeys(ms) ==> forall l :: i <= l < |ms| && ms[l].key == k ==> GetFrom(ms, k, i) == Some(ms[l].value)
    decreases |ms| - i
  {
    if i < |ms| {
      GetFromByKey(ms, k, i + 1);
    }
  }

  lemma {:induction false} ValueInside(ms: seq<Member>, k: Key, i: nat)
    requires i <= |ms|
    ensures GetFrom(ms, k, i).Some? ==> exists l :: i <= l < |ms| && ms[l].value == GetFrom(ms, k, i).value
    decreases |ms| - i
  {
    if i < |ms| && ms[i].key != k {
      ValueInside(ms, k, i + 1);
    }
  }

  /** A member of an object is smaller than the object. */
  function Part(j: Json, k: Key): (r: Option<Json>)
    requires j.JObj?
    ensures r == Get(j.members, k)
    ensures r.Some? ==> r.value < j
  {
    ValueInside(j.members, k, 0);
    Get(j.members, k)
  }

  predicate DistinctKeys(ms: seq<Member>) {
    forall i, l :: 0 <= i < l < |ms| ==> ms[i].key != ms[l].key
  }

  predicate HasKey(ms: seq<Member>, k: Key) { exists i :: 0 <= i < |ms| && ms[i].key == k }

  // ----- specification -----

  /** Objects have no raw value. */
  function RawValue(j: Json): Value
    decreases j
  {
    match j
    case JNull => Null
    case JBool(b) => Bool(b)
    case JNum(n) => Num(n)
    case JStr(s) => Str(s)
    case JArr(items) => Appended(RawValues(items), true)
    case JObj(_) => Null
  }

  function RawValues(items: seq<Json>): (r: seq<Value>)
    ensures |r| == |items| && forall i :: 0 <= i < |r| ==> r[i] == RawValue(items[i])
    decreases items
  {
    if items == [] then []
    else RawValues(items[..|items| - 1]) + [RawValue(items[|items| - 1])]
  }

  function RawOption(j: Option<Json>): Value {
    match j
    case Some(value) => RawValue(value)
    case None => Null
  }

  /** The words the parser takes for operators. */
  predicate IsWord(k: Key) { IsOperator(k) || k.Like? || k.NLike? }

  function ParseWhere(j: Json): Option<Where>
    decreases j, 1
  {
    if !j.JObj? then None
    else
      var options := Atom(RawOption(Get(j.members, Options)));
      match Get(j.members, Like)
      case Some(pattern) => Some(Where(map[Like := Atom(RawValue(pattern)), Options := options]))
      case None =>
        match Get(j.members, NLike)
        case Some(pattern) => Some(Where(map[NLike := Atom(RawValue(pattern)), Options := options]))
        case None => ParseMembers(j.members)
  }

  /** Every member is read; a repeated key keeps its last value. */
  function ParseMembers(ms: seq<Member>): Option<Where>
    decreases ms
  {
    if ms == [] then Some(EMPTY)
    else
      var front := ParseMembers(ms[..|ms| - 1]);
      var last := ms[|ms| - 1];
      var node := ParseMember(last);
      if front.Some? && node.Some? then Some(Where(front.value.m[last.key := node.value])) else None
  }

  function ParseMember(m: Member): Option<Node>
    decreases m
  {
    var (k, v) := (m.key, m.value);
    if k.Dollar? then None
    else if k.And? || k.Or? then
      if v.JArr? then
        match ParseAll(v.items)
        case Some(ws) => Some(Group(ws))
        case None => None
      else None
    else if v.JObj? then
      match ParseWhere(v)
      case Some(w) => Some(Sub(w))
      case None => None
    else if (k.Inq? || k.Nin?) && !v.JArr? then None
    else if IsWord(k) then Some(Atom(RawValue(v)))
    else Some(Sub(Where(map[Eq := Atom(RawValue(v))])))
  }

  function ParseAll(items: seq<Json>): Option<seq<Where>>
    decreases items
  {
    if items == [] then Some([])
    else
      var front := ParseAll(items[..|items| - 1]);
      var last := ParseWhere(items[|items| - 1]);
      if front.Some? && last.Some? then Some(front.value + [last.value]) else None
  }

  // ----- the parser -----

  method GetRawValue(j: Json) returns (v: Value)
    ensures v == RawValue(j)
    decreases j
  {
    match j
    case JStr(s) => v := Str(s);
    case JNum(n) => v := Num(n);
    case JNull => v := Null;
    case JBool(b) => v := Bool(b);
    case JArr(items) =>
      var value: seq<Value> := [];
      for i := 0 to |items|
        invariant value == RawValues(items[..i])
      {
        var el := GetRawValue(items[i]);
        assert items[..i + 1][..i] == items[..i];
        value := value + [el];
      }
      assert items[..|items|] == items;
      v := Appended(value, true);
    case JObj(_) => v := Null;
  }

  /** Visiting goes on after an error; the error is what counts in the end. */
  method ParseWhereValue(j: Json) returns (result: Where, failed: bool)
    ensures failed <==> ParseWhere(j).None?
    ensures !failed ==> ParseWhere(j) == Some(result)
    decreases j, 1
  {
    if !j.JObj? {
      return EMPTY, true;
    }
    var opts := RawOption(Get(j.members, Options));
    var like := Get(j.members, Like);
    if like.Some? {
      return Where(map[Like := Atom(RawValue(like.value)), Options := Atom(opts)]), false;
    }
    var nlike := Get(j.members, NLike);
    if nlike.Some? {
      return Where(map[NLike := Atom(RawValue(nlike.value)), Options := Atom(opts)]), false;
    }
    result, failed := EMPTY, false;
    var ms := j.members;
    for i := 0 to |ms|
      invariant failed <==> ParseMembers(ms[..i]).None?
      invariant !failed ==> ParseMembers(ms[..i]) == Some(result)
    {
      var node, bad := VisitMember(ms[i]);
      assert ms[..i + 1][..i] == ms[..i];
      if bad {
        failed := true;
      } else {
        result := Where(result.m[ms[i].key := node]);
      }
    }
    assert ms[..|ms|] == ms;
  }

  method VisitMember(m: Member) returns (node: Node, bad: bool)
    ensures bad <==> ParseMember(m).None?
    ensures !bad ==> ParseMember(m) == Some(node)
    decreases m
  {
    var k, v := m.key, m.value;
    node, bad := Atom(Null), false;
    if k.Dollar? {
      return node, true;
    }
    if k.And? || k.Or? {
      if !v.JArr? {
        return node, true;
      }
      var andOr: seq<Where> := [];
      var items := v.items;
      for i := 0 to |items|
        invariant bad <==> ParseAll(items[..i]).None?
        invariant !bad ==> ParseAll(items[..i]) == Some(andOr)
      {
        var cond, failed := ParseWhereValue(items[i]);
        assert items[..i + 1][..i] == items[..i];
        bad := bad || failed;
        andOr := andOr + [cond];
      }
      assert items[..|items|] == items;
      return Group(andOr), bad;
    }
    if v.JObj? {
      var w, failed := ParseWhereValue(v);
      return Sub(w), failed;
    }
    if (k.Inq? || k.Nin?) && !v.JArr? {
      return node, true;
    }
    var value := GetRawValue(v);
    node := if IsWord(k) then Atom(value) else Sub(Where(map[Eq := Atom(value)]));
  }

  // ----- what the parser feeds to the compiler -----

  /** Trees the parser can build: no dollar key anywhere, lists exactly under and/or,
      plain operands exactly under operators and in pattern objects. */
  ghost predicate Parsed(w: Where)
    decreases w
  {
    || (w.m.Keys == {Like, Options} && w.m[Like].Atom? && w.m[Options].Atom?)
    || (w.m.Keys == {NLike, Options} && w.m[NLike].Atom? && w.m[Options].Atom?)
    || (Like !in w.m && NLike !in w.m && forall k :: k in w.m ==> ParsedEntry(k, w.m[k]))
  }

  ghost predicate ParsedEntry(k: Key, n: Node)
    decreases n
  {
    !k.Dollar? && ((k.And? || k.Or?) <==> n.Group?) &&
    match n
    case Group(ws) => AllParsed(ws)
    case Sub(w) => Parsed(w)
    case Atom(v) => IsOperator(k) && (k.Inq? || k.Nin? ==> IsSlice(v))
  }

  ghost predicate AllParsed(ws: seq<Where>)
    decreases ws
  {
    forall i :: 0 <= i < |ws| ==> Parsed(ws[i])
  }

  lemma {:induction false} ParserShape(j: Json)
    ensures ParseWhere(j).Some? ==> Parsed(ParseWhere(j).value)
    decreases j, 1
  {
    if j.JObj? && Get(j.members, Like).None? && Get(j.members, NLike).None? {
      GetByKey(j.members, Like);
      GetByKey(j.members, NLike);
      MembersShape(j.members);
    }
  }

  lemma {:induction false} MembersShape(ms: seq<Member>)
    requires forall i :: 0 <= i < |ms| ==> ms[i].key != Like && ms[i].key != NLike
    ensures ParseMembers(ms).Some? ==>
              && Like !in ParseMembers(ms).value.m && NLike !in ParseMembers(ms).value.m
              && forall k :: k in ParseMembers(ms).value.m ==> ParsedEntry(k, ParseMembers(ms).value.m[k])
    decreases ms
  {
    if ms != [] {
      MembersShape(ms[..|ms| - 1]);
      MemberShape(ms[|ms| - 1]);
    }
  }

  lemma {:induction false} MemberShape(m: Member)
    requires !m.key.Like? && !m.key.NLike?
    ensures ParseMember(m).Some? ==> ParsedEntry(m.key, ParseMember(m).value)
    decreases m
  {
    if m.value.JObj? {
      ParserShape(m.value);
    } else if m.value.JArr? {
      ListShape(m.value.items);
    }
  }

  lemma {:induction false} ListShape(items: seq<Json>)
    ensures ParseAll(items).Some? ==> AllParsed(ParseAll(items).value)
    decreases items
  {
    if items != [] {
      ListShape(items[..|items| - 1]);
      ParserShape(items[|items| - 1]);
    }
  }

  /** No object reached while compiling a parsed tree carries a `$where`. */
  lemma {:induction false} NoWhereClause(w: Where, parent: string, inner: Where, innerParent: string, env: Env)
    requires Parsed(w) && Reaches(w, parent, inner, innerParent, env)
    ensures Parsed(inner) && WHERE_CLAUSE !in inner.m
    decreases w
  {
    if !(w == inner && parent == innerParent) {
      var k :| k in w.m && EntryReaches(k, w.m[k], parent, inner, innerParent, env);
      assert ParsedEntry(k, w.m[k]);
      match w.m[k]
      case Sub(sub) => NoWhereClause(sub, Text(k), inner, innerParent, env);
      case Group(ws) =>
        var i :| 0 <= i < |ws| && Reaches(ws[i], parent, inner, innerParent, env);
        assert AllParsed(ws);
        NoWhereClause(ws[i], parent, inner, innerParent, env);
    }
  }

  /** Operators hold plain operands and stand only under field keys. */
  ghost predicate Anchored(w: Where, underField: bool)
    decreases w
  {
    forall k :: k in w.m ==> AnchoredEntry(k, w.m[k], underField)
  }

  ghost predicate AnchoredEntry(k: Key, n: Node, underField: bool)
    decreases n
  {
    match n
    case Atom(_) => underField
    case Sub(w) => !IsOperator(k) && Anchored(w, true)
    case Group(ws) => forall i :: 0 <= i < |ws| ==> Anchored(ws[i], underField)
  }

  lemma {:induction false} NeverBare(w: Where, parent: string, underField: bool, env: Env)
    requires Parsed(w) && Anchored(w, underField) && (underField ==> Resolve(parent, env.fields).Some?)
    ensures !BareOperand(w, parent, env)
    decreases w
  {
    if !Special(w) {
      forall k | k in w.m ensures !BareEntry(k, w.m[k], parent, env) {
        assert AnchoredEntry(k, w.m[k], underField) && ParsedEntry(k, w.m[k]);
        EntryNeverBare(k, w.m[k], parent, underField, env);
      }
    }
  }

  lemma {:induction false} EntryNeverBare(k: Key, n: Node, parent: string, underField: bool, env: Env)
    requires ParsedEntry(k, n) && AnchoredEntry(k, n, underField) && (underField ==> Resolve(parent, env.fields).Some?)
    ensures !BareEntry(k, n, parent, env)
    decreases n
  {
    match n
    case Atom(_) =>
    case Sub(w) =>
      if Visited(k, env) {
        NeverBare(w, Text(k), true, env);
      }
    case Group(ws) =>
      assert AllParsed(ws);
      forall i | 0 <= i < |ws| ensures !BareOperand(ws[i], parent, env) {
        NeverBare(ws[i], parent, underField, env);
      }
  }

  /** Then compiling what was parsed never touches a nil field. */
  lemma AnchoredNeverCrashes(j: Json, env: Env)
    requires ParseWhere(j).Some? && Anchored(ParseWhere(j).value, false)
    ensures StatusOf(ParseWhere(j).value, "", env) != Crashes
  {
    ParserShape(j);
    NeverBare(ParseWhere(j).value, "", false, env);
    CrashesIffBareOperand(ParseWhere(j).value, "", env);
  }

  function NestedOperator(k: Key, v: Value): Where {
    Where(map[k := Sub(Where(map[Eq := Sub(Where(map[Gt := Atom(v)]))]))])
  }

  lemma NestedOperatorIsBare(k: Key, v: Value, env: Env)
    requires k.Path? && Resolve(Text(k), env.fields).Some? && Resolve("eq", env.fields).None?
    ensures BareOperand(NestedOperator(k, v), "", env)
  {
    var inner := Where(map[Gt := Atom(v)]);
    assert BareEntry(Gt, inner.m[Gt], "eq", env);
    var middle := Where(map[Eq := Sub(inner)]);
    assert BareEntry(Eq, middle.m[Eq], Text(k), env);
    var w := NestedOperator(k, v);
    assert BareEntry(k, w.m[k], "", env);
  }

  /** An operator bound to an object does crash: the inner operator's parent is the
      outer operator, which is no field. */
  lemma NestedOperatorCrashes(k: Key, v: real, env: Env)
    requires k.Path? && Resolve(Text(k), env.fields).Some? && Resolve("eq", env.fields).None?
    ensures var j := JObj([Member(k, JObj([Member(Eq, JObj([Member(Gt, JNum(v))]))]))]);
            ParseWhere(j).Some? && StatusOf(ParseWhere(j).value, "", env) == Crashes
  {
    OneMember(Gt, JNum(v), Atom(Num(v)));
    var inner := JObj([Member(Gt, JNum(v))]);
    OneMember(Eq, inner, Sub(Where(map[Gt := Atom(Num(v))])));
    var middle := JObj([Member(Eq, inner)]);
    OneMember(k, middle, Sub(Where(map[Eq := Sub(Where(map[Gt := Atom(Num(v))]))])));
    var w := NestedOperator(k, Num(v));
    assert ParseWhere(JObj([Member(k, middle)])) == Some(w);
    NestedOperatorIsBare(k, Num(v), env);
    CrashesIffBareOperand(w, "", env);
  }

  lemma OneMember(k: Key, v: Json, n: Node)
    requires !k.Like? && !k.NLike? && ParseMember(Member(k, v)) == Some(n)
    ensures ParseWhere(JObj([Member(k, v)])) == Some(Where(map[k := n]))
  {
    var ms := [Member(k, v)];
    GetByKey(ms, Like);
    GetByKey(ms, NLike);
    assert ms[..0] == [];
    assert ParseMembers(ms[..0]) == Some(EMPTY);
  }

  // ----- other ways to write the same -----

  /** A value bound to a field is short for an `eq` with that value, wherever it stands. */
  lemma ShorthandIsEq(front: seq<Member>, k: Key, v: Json, rest: seq<Member>)
    requires k.Path? && !v.JObj?
    ensures ParseWhere(JObj(front + [Member(k, v)] + rest)) ==
            ParseWhere(JObj(front + [Member(k, JObj([Member(Eq, v)]))] + rest))
  {
    var (short, long) := (Member(k, v), Member(k, JObj([Member(Eq, v)])));
    OneMember(Eq, v, Atom(RawValue(v)));
    SameGets(front, short, long, rest, Like);
    SameGets(front, short, long, rest, NLike);
    SameGets(front, short, long, rest, Options);
    SameMembers(front, short, long, rest);
  }

  lemma {:induction false} SameGets(front: seq<Member>, a: Member, b: Member, rest: seq<Member>, k: Key)
    requires a.key == b.key != k
    ensures Get(front + [a] + rest, k) == Get(front + [b] + rest, k)
  {
    SameGetsFrom(front + [a] + rest, front + [b] + rest, |front|, k, 0);
  }

  lemma {:induction false} SameGetsFrom(ms: seq<Member>, ms': seq<Member>, at: nat, k: Key, i: nat)
    requires |ms| == |ms'| && i <= |ms| && at < |ms| && ms[at].key != k && ms'[at].key != k
    requires forall l | 0 <= l < |ms| && l != at :: ms[l] == ms'[l]
    ensures GetFrom(ms, k, i) == GetFrom(ms', k, i)
    decreases |ms| - i
  {
    if i < |ms| { SameGetsFrom(ms, ms', at, k, i + 1); }
  }

  lemma {:induction false} SameMembers(front: seq<Member>, a: Member, b: Member, rest: seq<Member>)
    requires a.key == b.key && ParseMember(a) == ParseMember(b)
    ensures ParseMembers(front + [a] + rest) == ParseMembers(front + [b] + rest)
    decreases rest
  {
    var (ms, ms') := (front + [a] + rest, front + [b] + rest);
    var end := |ms| - 1;
    if rest == [] {
      assert ms[..end] == front == ms'[..end];
    } else {
      SameMembers(front, a, b, rest[..|rest| - 1]);
      assert ms[..end] == front + [a] + rest[..|rest| - 1] && ms'[..end] == front + [b] + rest[..|rest| - 1];
    }
  }

  /** It asks for that value. */
  lemma ShorthandMeans(k: Key, v: Json, view: View, env: Env)
    requires k.Path? && Text(k) in env.fields && !v.JObj?
    ensures var w := ParseWhere(JObj([Member(k, v)]));
            w.Some? && (Holds(w.value, view, env) <==>
                        Equals(Lookup(view, Text(k)), Typed(env.fields[Text(k)], RawValue(v), env)))
  {
    var ops := Where(map[Eq := Atom(RawValue(v))]);
    OneMember(k, v, Sub(ops));
    var w := Where(map[k := Sub(ops)]);
    assert Holds(w, view, env) <==> HoldsEntry(k, w.m[k], view, env);
    assert HoldsOps(ops, env.fields[Text(k)], Lookup(view, Text(k)), env) <==>
           Test(Eq, env.fields[Text(k)], ops.m[Eq].v, Lookup(view, Text(k)), env);
  }

  /** An object in a list of operands is as good as null. */
  function Flat(j: Json): Json
    decreases j
  {
    match j
    case JObj(_) => JNull
    case JArr(items) => JArr(seq(|items|, i requires 0 <= i < |items| => Flat(items[i])))
    case _ => j
  }

  lemma {:induction false} ObjectsAreNull(j: Json)
    ensures RawValue(j) == RawValue(Flat(j))
    decreases j
  {
    if j.JArr? {
      forall i | 0 <= i < |j.items| ensures RawValue(j.items[i]) == RawValue(Flat(j).items[i]) {
        ObjectsAreNull(j.items[i]);
      }
      assert RawValues(j.items) == RawValues(Flat(j).items);
    }
  }

  /** Next to a pattern nothing counts but options; no options are null ones. */
  lemma PatternStandsAlone(ms: seq<Member>)
    requires HasKey(ms, Like) || HasKey(ms, NLike)
    ensures var k := if HasKey(ms, Like) then Like else NLike;
            var options := if Get(ms, Options).Some? then Get(ms, Options).value else JNull;
            && Get(ms, k).Some?
            && ParseWhere(JObj(ms)) == ParseWhere(JObj([Member(k, Get(ms, k).value), Member(Options, options)]))
  {
    GetByKey(ms, Like);
    GetByKey(ms, NLike);
    GetByKey(ms, Options);
    var k := if HasKey(ms, Like) then Like else NLike;
    var options := if Get(ms, Options).Some? then Get(ms, Options).value else JNull;
    var two := [Member(k, Get(ms, k).value), Member(Options, options)];
    GetByKey(two, Like);
    GetByKey(two, NLike);
    GetByKey(two, Options);
    assert two[0].key == k && two[1].key == Options;
  }

  /** Looking a key up finds its first member. */
  lemma {:induction false} FirstIsFound(ms: seq<Member>, k: Key, i: nat)
    requires i < |ms| && ms[i].key == k && forall l | 0 <= l < i :: ms[l].key != k
    ensures Get(ms, k) == Some(ms[i].value)
  {
    FoundFrom(ms, k, i, 0);
  }

  lemma {:induction false} FoundFrom(ms: seq<Member>, k: Key, i: nat, from: nat)
    requires from <= i < |ms| && ms[i].key == k && forall l | 0 <= l < i :: ms[l].key != k
    ensures GetFrom(ms, k, from) == Some(ms[i].value)
    decreases i - from
  {
    if from < i { FoundFrom(ms, k, i, from + 1); }
  }

  /** Reading an object goes by the last member with a key: an earlier one must only be
      readable. */
  lemma {:induction false} LastCounts(front: seq<Member>, m: Member, rest: seq<Member>)
    requires exists i | 0 <= i < |rest| :: rest[i].key == m.key
    requires ParseWhere(JObj([m])).Some? && !m.key.Like? && !m.key.NLike?
    ensures ParseMembers(front + [m] + rest) == ParseMembers(front + rest)
    decreases rest
  {
    Readable(m);
    var i :| 0 <= i < |rest| && rest[i].key == m.key;
    var (ms, ms', end) := (front + [m] + rest, front + rest, |rest| - 1);
    assert ms[..|ms| - 1] == front + [m] + rest[..end] && ms'[..|ms'| - 1] == front + rest[..end];
    assert ms[|ms| - 1] == rest[end] == ms'[|ms'| - 1];
    if exists l | 0 <= l < end :: rest[..end][l].key == m.key {
      LastCounts(front, m, rest[..end]);
    } else {
      assert i == end;
      Untouched(front, m, rest[..end]);
      var (x, y, n) := (ParseMembers(ms[..|ms| - 1]), ParseMembers(ms'[..|ms'| - 1]), ParseMember(rest[end]));
      if x.Some? && n.Some? {
        assert x.value.m[m.key := n.value] == (x.value.m - {m.key})[m.key := n.value];
        assert y.value.m[m.key := n.value] == (y.value.m - {m.key})[m.key := n.value];
      }
    }
  }

  lemma Readable(m: Member)
    requires ParseWhere(JObj([m])).Some? && !m.key.Like? && !m.key.NLike?
    ensures ParseMember(m).Some?
  {
    var ms := [m];
    GetByKey(ms, Like);
    GetByKey(ms, NLike);
    assert ms[..0] == [];
  }

  /** Members with other keys are read alike with and without a member before them. */
  lemma {:induction false} Untouched(front: seq<Member>, m: Member, rest: seq<Member>)
    requires ParseMember(m).Some? && forall i | 0 <= i < |rest| :: rest[i].key != m.key
    ensures var (a, b) := (ParseMembers(front + [m] + rest), ParseMembers(front + rest));
            (a.Some? <==> b.Some?) && (a.Some? ==> a.value.m - {m.key} == b.value.m - {m.key})
    decreases rest
  {
    var (ms, ms', end) := (front + [m] + rest, front + rest, |rest| - 1);
    if rest == [] {
      assert ms[..|ms| - 1] == front && ms' == front;
    } else {
      assert ms[..|ms| - 1] == front + [m] + rest[..end] && ms'[..|ms'| - 1] == front + rest[..end];
      assert ms[|ms| - 1] == rest[end] == ms'[|ms'| - 1];
      Untouched(front, m, rest[..end]);
      var (x, y, n) := (ParseMembers(ms[..|ms| - 1]), ParseMembers(ms'[..|ms'| - 1]), ParseMember(rest[end]));
      if x.Some? && n.Some? {
        assert x.value.m[rest[end].key := n.value] - {m.key} == (x.value.m - {m.key})[rest[end].key := n.value];
        assert y.value.m[rest[end].key := n.value] - {m.key} == (y.value.m - {m.key})[rest[end].key := n.value];
      }
    }
  }
}
