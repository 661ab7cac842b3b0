/** The LoopBack filter language: operand values, `where` trees, and the direct
    meaning of a `where` over the JSON view of a document.

    A nil `where` and an empty one take the same path through every function
    modelled here, so both are the empty map. */
module Lbq {
  import opened Wrappers

  /** An operand or stored value. `Int` is an int64, the one integer that dates are read from.
      `dynamic` says whether a Go slice has static type []any; a nil slice is not the same as
      one without elements. */
  datatype Value =
    | Null
    | Bool(b: bool)
    | Int(i: int)
    | Num(n: real)
    | Str(s: string)
    | ObjectId(id: nat)
    | Instant(ms: int)
    | Slice(items: seq<Value>, dynamic: bool)
    | NilSlice(dynamic: bool)
    | Subdocument(m: map<string, Value>)

  /** What a `where` key is bound to: an operand, a nested lbq.Where, or an
      lbq.AndOrCondition. */
  datatype Node = Atom(v: Value) | Sub(w: Where) | Group(ws: seq<Where>)

  /** A key of a `where` object, read once: an operator word, another reserved
      word, a name starting with a dollar sign, or a path. */
  datatype Key =
    | Eq | Neq | Gt | Gte | Lt | Lte | Inq | Nin | And | Or | Exists
    | Like | NLike | Options
    | Dollar(rest: string)
    | Path(name: string)

  datatype Where = Where(m: map<Key, Node>)

  const WHERE_CLAUSE := Dollar("where")

  function Lex(s: string): Key {
    match s
    case "eq" => Eq
    case "neq" => Neq
    case "gt" => Gt
    case "gte" => Gte
    case "lt" => Lt
    case "lte" => Lte
    case "inq" => Inq
    case "nin" => Nin
    case "and" => And
    case "or" => Or
    case "exists" => Exists
    case "like" => Like
    case "nlike" => NLike
    case "options" => Options
    case _ => if "$" <= s then Dollar(s[1..]) else Path(s)
  }

  function Text(k: Key): string {
    match k
    case Eq => "eq"
    case Neq => "neq"
    case Gt => "gt"
    case Gte => "gte"
    case Lt => "lt"
    case Lte => "lte"
    case Inq => "inq"
    case Nin => "nin"
    case And => "and"
    case Or => "or"
    case Exists => "exists"
    case Like => "like"
    case NLike => "nlike"
    case Options => "options"
    case Dollar(rest) => "$" + rest
    case Path(name) => name
  }

  /** Reading a key loses nothing: two strings never read as the same key. */
  lemma LexIsInjective(s: string)
    ensures Text(Lex(s)) == s
  {}

  const EMPTY := Where(map[])

  /** What the schema knows about one declared path. */
  datatype Field = Field(bsonName: string, dataType: string, isPointer: bool)

  type Fields = map<string, Field>

  const DT_OBJECT_ID := "ObjectID"
  const DT_DATE := "Date"

  /** The schema, with the names of the fields that are always or never to be returned,
      together with the foreign functions the query code relies on: hexadecimal object
      ids, date strings, and regular-expression matching. */
  datatype Env = Env(
    fields: Fields,
    required: set<string>,
    banned: set<string>,
    oidFromHex: string -> Option<nat>,
    parseDate: string -> Option<int>,
    regex: (Value, Value, Value) -> bool)

  /** A whole filter. A nil map or list is the empty one. */
  datatype Filter = Filter(
    fields: map<string, bool>,
    limit: nat,
    order: seq<Order>,
    skip: nat,
    where: Where,
    includes: seq<Include>)

  datatype Order = Order(field: string, direction: string)

  datatype Include = Include(relation: string, scope: Option<Filter>)

  // ----- values -----

  predicate Numeric(v: Value) { v.Int? || v.Num? }

  function NumberOf(v: Value): real
    requires Numeric(v)
  {
    if v.Int? then v.i as real else v.n
  }

  predicate IsSlice(v: Value) { v.Slice? || v.NilSlice? }

  function ItemsOf(v: Value): seq<Value> { if v.Slice? then v.items else [] }

  /** The value as a document holds it, with `none` in the place of every nil slice. */
  function Written(v: Value, none: Value): Value
    decreases v
  {
    match v
    case NilSlice(_) => none
    case Slice(items, _) => Slice(WrittenAll(items, none), false)
    case Subdocument(m) => Subdocument(map k | k in m :: Written(m[k], none))
    case _ => v
  }

  function WrittenAll(items: seq<Value>, none: Value): (r: seq<Value>)
    ensures |r| == |items| && forall i | 0 <= i < |r| :: r[i] == Written(items[i], none)
    decreases items
  {
    if items == [] then []
    else WrittenAll(items[..|items| - 1], none) + [Written(items[|items| - 1], none)]
  }

  /** What the driver writes: a nil slice becomes null. */
  function Wire(v: Value): Value { Written(v, Null) }

  /** What an operand stands for: a nil slice is a list without elements. */
  function Meant(v: Value): Value { Written(v, Slice([], false)) }

  /** No nil slice, here or inside. */
  predicate NilFree(v: Value)
    decreases v
  {
    match v
    case NilSlice(_) => false
    case Slice(items, _) => forall i | 0 <= i < |items| :: NilFree(items[i])
    case Subdocument(m) => forall k | k in m :: NilFree(m[k])
    case _ => true
  }

  /** The driver writes what is meant exactly where there is no nil slice. */
  lemma {:induction false} WritesWhatIsMeant(v: Value)
    ensures Wire(v) == Meant(v) <==> NilFree(v)
    decreases v
  {
    match v
    case Slice(items, _) =>
      forall i | 0 <= i < |items| ensures Wire(items[i]) == Meant(items[i]) <==> NilFree(items[i]) {
        WritesWhatIsMeant(items[i]);
      }
      assert Wire(v) == Meant(v) <==> WrittenAll(items, Null) == WrittenAll(items, Slice([], false));
    case Subdocument(m) =>
      forall k | k in m ensures Wire(v).m[k] == Meant(v).m[k] <==> NilFree(m[k]) {
        WritesWhatIsMeant(m[k]);
      }
      assert Wire(v) == Meant(v) <==> Wire(v).m == Meant(v).m;
    case _ =>
  }

  /** What arrives in place of a value: null for a nil slice, and anything else as it is. */
  predicate Arrives(v: Value, w: Value)
    decreases v
  {
    match v
    case NilSlice(_) => w == Null
    case Slice(items, _) =>
      && w.Slice? && !w.dynamic && |w.items| == |items|
      && forall i | 0 <= i < |items| :: Arrives(items[i], w.items[i])
    case Subdocument(m) =>
      w.Subdocument? && w.m.Keys == m.Keys && forall k | k in m :: Arrives(m[k], w.m[k])
    case _ => w == v
  }

  lemma {:induction false} WireArrives(v: Value)
    ensures Arrives(v, Wire(v))
    decreases v
  {
    match v
    case Slice(items, _) =>
      forall i | 0 <= i < |items| ensures Arrives(items[i], Wire(v).items[i]) {
        WireArrives(items[i]);
      }
    case Subdocument(m) =>
      forall k | k in m ensures Arrives(m[k], Wire(v).m[k]) {
        WireArrives(m[k]);
      }
    case _ =>
  }

  /** Equality of two present values; 1 and 1.0 are the same number. */
  predicate Same(a: Value, b: Value) {
    if Numeric(a) && Numeric(b) then NumberOf(a) == NumberOf(b) else a == b
  }

  predicate StringLess(a: string, b: string)
    decreases a
  {
    b != [] && (a == [] || a[0] < b[0] || (a[0] == b[0] && StringLess(a[1..], b[1..])))
  }

  /** Dictionary order. */
  lemma {:induction false} StringsInOrder(a: string, b: string)
    ensures StringLess(a, b) <==> a < b || exists i :: FirstDifference(a, b, i) && a[i] < b[i]
    decreases a
  {
    if a != [] && b != [] {
      assert a == [a[0]] + a[1..] && b == [b[0]] + b[1..];
      if a[0] == b[0] {
        StringsInOrder(a[1..], b[1..]);
        if i :| FirstDifference(a[1..], b[1..], i) && a[1..][i] < b[1..][i] {
          assert a[..i + 1] == [a[0]] + a[1..][..i] && b[..i + 1] == [b[0]] + b[1..][..i];
          assert FirstDifference(a, b, i + 1);
        }
        if i :| FirstDifference(a, b, i) && a[i] < b[i] {
          assert a[1..][..i - 1] == a[..i][1..] && b[1..][..i - 1] == b[..i][1..];
          assert FirstDifference(a[1..], b[1..], i - 1);
        }
      } else {
        assert FirstDifference(a, b, 0);
        assert forall i :: FirstDifference(a, b, i) ==> i == 0 || a[..i][0] == b[..i][0];
      }
    }
  }

  predicate FirstDifference(a: string, b: string, i: int) {
    0 <= i < |a| && i < |b| && a[..i] == b[..i] && a[i] != b[i]
  }

  /** Strict order, defined between values of one type bracket only. */
  predicate Less(a: Value, b: Value) {
    if Numeric(a) && Numeric(b) then NumberOf(a) < NumberOf(b)
    else match (a, b)
      case (Bool(x), Bool(y)) => !x && y
      case (Str(x), Str(y)) => StringLess(x, y)
      case (ObjectId(x), ObjectId(y)) => x < y
      case (Instant(x), Instant(y)) => x < y
      case _ => false
  }

  /** A missing value equals null, as MongoDB has it. */
  predicate Equals(x: Option<Value>, v: Value) {
    match x
    case None => v.Null?
    case Some(y) => Same(y, v)
  }

  predicate Below(x: Option<Value>, v: Value) { x.Some? && Less(x.value, v) }

  predicate Above(x: Option<Value>, v: Value) { x.Some? && Less(v, x.value) }

  predicate Among(x: Option<Value>, items: seq<Value>) {
    exists i | 0 <= i < |items| :: Equals(x, items[i])
  }

  // ----- direct meaning -----

  /** A document by JSON path. */
  type View = map<string, Value>

  function Lookup(view: View, path: string): Option<Value> {
    if path in view then Some(view[path]) else None
  }

  /** The operand as the field's declared type sees it. An operand that has no
      reading in that type is compared as it stands. */
  function Typed(f: Field, v: Value, env: Env): Value { Meant(Cast(f, v, env)) }

  function Cast(f: Field, v: Value, env: Env): Value {
    if f.dataType == DT_OBJECT_ID && v.Str? && env.oidFromHex(v.s).Some? then ObjectId(env.oidFromHex(v.s).value)
    else if f.dataType == DT_DATE && v.Str? && env.parseDate(v.s).Some? then Instant(env.parseDate(v.s).value)
    else if f.dataType == DT_DATE && v.Int? then Instant(v.i * 1000)
    else v
  }

  function ElementsOf(f: Field, v: Value, env: Env): seq<Value> {
    var items := ItemsOf(v);
    seq(|items|, i requires 0 <= i < |items| => Typed(f, items[i], env))
  }

  /** One operator with a plain operand, applied to a field's value. */
  predicate Test(op: Key, f: Field, v: Value, x: Option<Value>, env: Env) {
    match op
    case Eq => Equals(x, Typed(f, v, env))
    case Neq => !Equals(x, Typed(f, v, env))
    case Gt => Above(x, Typed(f, v, env))
    case Gte => Above(x, Typed(f, v, env)) || Equals(x, Typed(f, v, env))
    case Lt => Below(x, Typed(f, v, env))
    case Lte => Below(x, Typed(f, v, env)) || Equals(x, Typed(f, v, env))
    case Inq => Among(x, ElementsOf(f, v, env))
    case Nin => !Among(x, ElementsOf(f, v, env))
    case Exists => v.Bool? && (v.b <==> x.Some?)
    case _ => true
  }

  /** `options` given next to a pattern; absent and null are the same. */
  function OptionsOf(ops: Where): Value {
    if Options in ops.m && ops.m[Options].Atom? then ops.m[Options].v else Null
  }

  predicate Likes(pattern: Value, options: Value, x: Option<Value>, env: Env) {
    x.Some? && env.regex(pattern, options, x.value)
  }

  /** All conditions an operator object puts on a field's value. */
  ghost predicate HoldsOps(ops: Where, f: Field, x: Option<Value>, env: Env) {
    forall k | k in ops.m && ops.m[k].Atom? ::
      match k
      case Like => Likes(ops.m[k].v, OptionsOf(ops), x, env)
      case NLike => !Likes(ops.m[k].v, OptionsOf(ops), x, env)
      case _ => Test(k, f, ops.m[k].v, x, env)
  }

  /** The declared field, or an untyped one for a path the schema lacks. */
  function FieldAt(path: string, env: Env): Field {
    if path in env.fields then env.fields[path] else Field(path, "", false)
  }

  /** The meaning of a `where` object: all of its entries hold. */
  ghost predicate Holds(w: Where, view: View, env: Env)
    decreases w
  {
    forall k | k in w.m :: HoldsEntry(k, w.m[k], view, env)
  }

  ghost predicate HoldsEntry(k: Key, n: Node, view: View, env: Env)
    decreases n
  {
    match n
    case Atom(v) => Test(Eq, FieldAt(Text(k), env), v, Lookup(view, Text(k)), env)
    case Sub(ops) => HoldsOps(ops, FieldAt(Text(k), env), Lookup(view, Text(k)), env)
    case Group(ws) =>
      if k.Or? then AnyHolds(ws, view, env) else AllHold(ws, view, env)
  }

  ghost predicate AllHold(ws: seq<Where>, view: View, env: Env)
    decreases ws
  {
    forall i | 0 <= i < |ws| :: Holds(ws[i], view, env)
  }

  ghost predicate AnyHolds(ws: seq<Where>, view: View, env: Env)
    decreases ws
  {
    exists i | 0 <= i < |ws| :: Holds(ws[i], view, env)
  }

  lemma AppendMember(ws: seq<Where>, w: Where, view: View, env: Env)
    ensures AllHold(ws + [w], view, env) <==> AllHold(ws, view, env) && Holds(w, view, env)
    ensures AnyHolds(ws + [w], view, env) <==> AnyHolds(ws, view, env) || Holds(w, view, env)
  {
    var all := ws + [w];
    assert all[|ws|] == w && forall i :: 0 <= i < |ws| ==> all[i] == ws[i];
  }
}
