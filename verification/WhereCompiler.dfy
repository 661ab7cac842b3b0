/** Compiling a `where` tree to a MongoDB query document.

    Go visits the keys of a map in an arbitrary order, so what a call returns is
    given by a relation: `StatusOf` says how the call ends, `UnknownFields` what it
    warns about, and `IsQuery` which query documents it may return. */
module WhereCompiler {
  import opened Wrappers
  import opened Lbq
  import opened Mongo
  import opened FieldResolution

  /** The keys that stand for a MongoDB operator. */
  function OperatorOf(k: Key): Option<QueryKey> {
    match k
    case Eq => Some(OpEq)
    case Neq => Some(OpNe)
    case Gt => Some(OpGt)
    case Gte => Some(OpGte)
    case Lt => Some(OpLt)
    case Lte => Some(OpLte)
    case Inq => Some(OpIn)
    case Nin => Some(OpNin)
    case And => Some(OpAnd)
    case Or => Some(OpOr)
    case Exists => Some(OpExists)
    case _ => None
  }

  const WHERE_CLAUSE_NOT_ALLOWED := "WHERE_CLAUSE_NOT_ALLOWED"
  const INVALID_EXISTS_CONDITION := "INVALID_EXISTS_CONDITION"
  const INVALID_AND_OR_CONDITION := "INVALID_AND_OR_CONDITION"

  /** A call panics, returns the joined error codes, or returns a query. */
  datatype Outcome =
    | Crash
    | Fail(warnings: seq<string>, errors: seq<string>)
    | Success(query: Query, warnings: seq<string>)

  // ----- operand conversion -----

  function ToObjectId(v: Value, env: Env): Option<Value> {
    match v
    case Str(s) => (match env.oidFromHex(s) case Some(id) => Some(ObjectId(id)) case None => None)
    case ObjectId(_) => Some(v)
    case _ => None
  }

  function ToInstant(v: Value, env: Env): Option<Value> {
    match v
    case Instant(_) => Some(v)
    case Str(s) => (match env.parseDate(s) case Some(ms) => Some(Instant(ms)) case None => None)
    case Int(i) => Some(Instant(i * 1000))
    case _ => None
  }

  /** Every item converted, or None as soon as one has no conversion. */
  function ConvertAll(items: seq<Value>, convert: Value -> Option<Value>): (r: Option<seq<Value>>)
    ensures r.Some? <==> forall i :: 0 <= i < |items| ==> convert(items[i]).Some?
    ensures r.Some? ==> |r.value| == |items| &&
                        forall i :: 0 <= i < |items| ==> convert(items[i]) == Some(r.value[i])
  {
    if items == [] then Some([])
    else
      var last := convert(items[|items| - 1]);
      match ConvertAll(items[..|items| - 1], convert)
      case Some(rest) => if last.Some? then Some(rest + [last.value]) else None
      case None => None
  }

  /** The slice that appending the items one by one gives: nil when there are none. */
  function Appended(items: seq<Value>, dynamic: bool): Value {
    if items == [] then NilSlice(dynamic) else Slice(items, dynamic)
  }

  /** Lists of ids may be any Go slice; lists of dates must be []any. */
  function ConvertList(v: Value, anySlice: bool, convert: Value -> Option<Value>): Option<Value> {
    if IsSlice(v) && (anySlice || v.dynamic) then
      match ConvertAll(ItemsOf(v), convert)
      case Some(items) => Some(Appended(items, false))
      case None => None
    else None
  }

  /** The operand that goes into the query for `key`, if there is one. */
  function Convert(f: Field, key: Key, v: Value, env: Env): Option<Value> {
    if f.dataType == DT_OBJECT_ID || f.dataType == DT_DATE then
      var isId := f.dataType == DT_OBJECT_ID;
      var convert := x => if isId then ToObjectId(x, env) else ToInstant(x, env);
      if key.Inq? || key.Nin? then ConvertList(v, isId, convert)
      else if f.isPointer && v.Null? then Some(Null)
      else convert(v)
    else Some(v)
  }

  // ----- how a call ends -----

  /** Empty and Full are the successful ends: without and with query entries. */
  datatype Status = Crashes | Rejects | Empty | Full

  predicate IsOperator(k: Key) { OperatorOf(k).Some? }

  predicate Skipped(k: Key) { k.Dollar? }

  /** The field a key's operand belongs to. */
  function FieldFor(k: Key, parent: string, env: Env): Option<Field> {
    Resolve(if IsOperator(k) then parent else Text(k), env.fields)
  }

  predicate Unknown(k: Key, env: Env) {
    !Skipped(k) && !IsOperator(k) && Resolve(Text(k), env.fields).None?
  }

  predicate Visited(k: Key, env: Env) { !Skipped(k) && !Unknown(k, env) }

  /** One of exists, like and nlike takes the whole object over. */
  predicate Special(w: Where) { Exists in w.m || Like in w.m || NLike in w.m }

  ghost function StatusOf(w: Where, parent: string, env: Env): Status
    decreases w
  {
    if WHERE_CLAUSE in w.m then Rejects
    else if Exists in w.m then
      if w.m[Exists].Atom? && w.m[Exists].v.Bool? then Full else Rejects
    else if Special(w) then Full
    else if exists k :: k in w.m && EntryStatus(k, w.m[k], parent, env) == Crashes then Crashes
    else if exists k :: k in w.m && EntryStatus(k, w.m[k], parent, env) == Rejects then Rejects
    else if exists k :: k in w.m && EntryStatus(k, w.m[k], parent, env) == Full then Full
    else Empty
  }

  /** Full here means that the entry puts something into the query. */
  ghost function EntryStatus(k: Key, n: Node, parent: string, env: Env): Status
    decreases n
  {
    if !Visited(k, env) then Empty
    else match n
      case Group(ws) => GroupStatus(ws, parent, env)
      case Sub(w) => StatusOf(w, Text(k), env)
      case Atom(v) =>
        match FieldFor(k, parent, env)
        case None => Crashes
        case Some(f) => if Convert(f, k, v, env).Some? then Full else Empty
  }

  /** An and/or list needs at least one member that puts something into the query. */
  ghost function GroupStatus(ws: seq<Where>, parent: string, env: Env): Status
    decreases ws, 1
  {
    if AnyEnds(Crashes, ws, parent, env) then Crashes
    else if AnyEnds(Rejects, ws, parent, env) || !AnyEnds(Full, ws, parent, env) then Rejects
    else Full
  }

  ghost predicate AnyEnds(s: Status, ws: seq<Where>, parent: string, env: Env)
    decreases ws, 0
  {
    exists i :: 0 <= i < |ws| && StatusOf(ws[i], parent, env) == s
  }

  // ----- what a call warns about -----

  /** The unknown field names met on the way, nested ones included. */
  ghost function UnknownFields(w: Where, parent: string, env: Env): set<string>
    decreases w, 1
  {
    if WHERE_CLAUSE in w.m || Special(w) then {}
    else UnknownOver(w, w.m.Keys, parent, env)
  }

  ghost function UnknownOver(w: Where, keys: set<Key>, parent: string, env: Env): set<string>
    requires keys <= w.m.Keys
    decreases w, 0
  {
    set k, x | k in keys && x in EntryUnknown(k, w.m[k], parent, env) :: x
  }

  ghost function EntryUnknown(k: Key, n: Node, parent: string, env: Env): set<string>
    decreases n
  {
    if Skipped(k) then {}
    else if Unknown(k, env) then {Text(k)}
    else match n
      case Atom(_) => {}
      case Sub(w) => UnknownFields(w, Text(k), env)
      case Group(ws) => UnknownIn(ws, parent, env)
  }

  ghost function UnknownIn(ws: seq<Where>, parent: string, env: Env): set<string>
    decreases ws
  {
    set i, x | 0 <= i < |ws| && x in UnknownFields(ws[i], parent, env) :: x
  }

  // ----- what a call fails with -----

  /** The error codes met on the way, nested ones included. */
  ghost function CodesOf(w: Where, parent: string, env: Env): set<string>
    decreases w, 1
  {
    if WHERE_CLAUSE in w.m then {WHERE_CLAUSE_NOT_ALLOWED}
    else if Exists in w.m && !(w.m[Exists].Atom? && w.m[Exists].v.Bool?) then {INVALID_EXISTS_CONDITION}
    else if Special(w) then {}
    else CodesOver(w, w.m.Keys, parent, env)
  }

  ghost function CodesOver(w: Where, keys: set<Key>, parent: string, env: Env): set<string>
    requires keys <= w.m.Keys
    decreases w, 0
  {
    set k, x | k in keys && x in EntryCodes(k, w.m[k], parent, env) :: x
  }

  ghost function EntryCodes(k: Key, n: Node, parent: string, env: Env): set<string>
    decreases n
  {
    if !Visited(k, env) then {}
    else match n
      case Atom(_) => {}
      case Sub(w) => CodesOf(w, Text(k), env)
      case Group(ws) => GroupCodes(ws, parent, env)
  }

  ghost function GroupCodes(ws: seq<Where>, parent: string, env: Env): set<string>
    decreases ws, 1
  {
    CodesIn(ws, parent, env) + if AnyEnds(Full, ws, parent, env) then {} else {INVALID_AND_OR_CONDITION}
  }

  ghost function CodesIn(ws: seq<Where>, parent: string, env: Env): set<string>
    decreases ws, 0
  {
    set i, x | 0 <= i < |ws| && x in CodesOf(ws[i], parent, env) :: x
  }

  /** When every entry puts something into the query, nothing is lost or warned about. */
  lemma AllFull(w: Where, parent: string, env: Env)
    requires !Special(w) && WHERE_CLAUSE !in w.m
    requires forall k :: k in w.m ==> EntryStatus(k, w.m[k], parent, env) == Full
    requires forall k :: k in w.m ==> EntryUnknown(k, w.m[k], parent, env) == {}
    ensures StatusOf(w, parent, env) == (if w.m == map[] then Empty else Full)
    ensures UnknownFields(w, parent, env) == {}
  {
    if w.m != map[] {
      var some :| some in w.m;
      assert EntryStatus(some, w.m[some], parent, env) == Full;
    }
  }

  // ----- which queries a call may return -----

  /** The query key an entry is stored under. */
  function NameOf(k: Key, n: Node, parent: string, env: Env): QueryKey {
    if n.Sub? || !IsOperator(k) then
      match FieldFor(k, parent, env)
      case Some(f) => Stored(f.bsonName)
      case None => Stored("")
    else OperatorOf(k).value
  }

  /** An operand handed over as it is. */
  function Embed(n: Node): MVal { if n.Atom? then Lit(n.v) else MVal.Raw(n) }

  function WithOptions(regex: map<QueryKey, MVal>, w: Where): map<QueryKey, MVal> {
    if Options in w.m && w.m[Options] != Atom(Null) then regex[OpOptions := Embed(w.m[Options])] else regex
  }

  function SpecialQuery(w: Where): Query
    requires Special(w)
  {
    if Exists in w.m then Query(map[OpExists := Embed(w.m[Exists])])
    else if Like in w.m then Query(WithOptions(map[OpRegex := Embed(w.m[Like])], w))
    else Query(map[OpNot := Doc(Query(WithOptions(map[OpRegex := Embed(w.m[NLike])], w)))])
  }

  ghost predicate Emits(k: Key, n: Node, parent: string, env: Env) {
    EntryStatus(k, n, parent, env) == Full
  }

  /** q holds one entry for each name that a key of `keys` emits under, and every
      entry of q comes from such a key. */
  ghost predicate IsQueryOver(q: Query, w: Where, keys: set<Key>, parent: string, env: Env)
    requires keys <= w.m.Keys
    decreases w, 0
  {
    && (forall k :: k in keys && Emits(k, w.m[k], parent, env) ==> NameOf(k, w.m[k], parent, env) in q.m)
    && (forall name :: name in q.m ==>
          exists k :: k in keys && Emits(k, w.m[k], parent, env) && NameOf(k, w.m[k], parent, env) == name
                      && IsEntry(q.m[name], k, w.m[k], parent, env))
  }

  /** q is a query that a successful call on w may return. */
  ghost predicate IsQuery(q: Query, w: Where, parent: string, env: Env)
    decreases w, 1
  {
    if Special(w) then q == SpecialQuery(w)
    else IsQueryOver(q, w, w.m.Keys, parent, env)
  }

  ghost predicate IsEntry(v: MVal, k: Key, n: Node, parent: string, env: Env)
    decreases n
  {
    match n
    case Atom(x) =>
      var f := FieldFor(k, parent, env);
      f.Some? && Convert(f.value, k, x, env).Some? && v == Lit(Convert(f.value, k, x, env).value)
    case Sub(w) => v.Doc? && IsQuery(v.q, w, Text(k), env)
    case Group(ws) => v.List? && IsList(v.qs, ws, parent, env)
  }

  /** The queries of the members that put something into the query, in order. */
  ghost predicate IsList(qs: seq<Query>, ws: seq<Where>, parent: string, env: Env)
    decreases ws
  {
    if ws == [] then qs == []
    else
      var last := |ws| - 1;
      if StatusOf(ws[last], parent, env) == Full then
        qs != [] && IsQuery(qs[|qs| - 1], ws[last], parent, env) && IsList(qs[..|qs| - 1], ws[..last], parent, env)
      else IsList(qs, ws[..last], parent, env)
  }

  /** The key that an entry of the query comes from. */
  lemma SourceOf(q: Query, w: Where, name: QueryKey, parent: string, env: Env) returns (k: Key)
    requires !Special(w) && IsQuery(q, w, parent, env) && name in q.m
    ensures k in w.m && Emits(k, w.m[k], parent, env) && NameOf(k, w.m[k], parent, env) == name
    ensures IsEntry(q.m[name], k, w.m[k], parent, env)
  {
    k :| k in w.m && Emits(k, w.m[k], parent, env) && NameOf(k, w.m[k], parent, env) == name
         && IsEntry(q.m[name], k, w.m[k], parent, env);
  }

  /** A key that shares its name with no other owns the entry under that name. */
  lemma OwnsEntry(q: Query, w: Where, k: Key, parent: string, env: Env)
    requires !Special(w) && IsQuery(q, w, parent, env) && k in w.m && Emits(k, w.m[k], parent, env)
    requires forall k' :: k' in w.m && NameOf(k', w.m[k'], parent, env) == NameOf(k, w.m[k], parent, env) ==> k' == k
    ensures NameOf(k, w.m[k], parent, env) in q.m
    ensures IsEntry(q.m[NameOf(k, w.m[k], parent, env)], k, w.m[k], parent, env)
  {
    var from := SourceOf(q, w, NameOf(k, w.m[k], parent, env), parent, env);
  }

  function Elements(s: seq<string>): set<string> { set x | x in s }

  lemma SomeElement(s: seq<string>)
    ensures s != [] ==> Elements(s) != {}
  {
    if s != [] {
      assert s[0] in Elements(s);
    }
  }

  lemma ElementsAppend(a: seq<string>, b: seq<string>)
    ensures Elements(a + b) == Elements(a) + Elements(b)
  {}

  lemma UnknownGrows(w: Where, done: set<Key>, key: Key, parent: string, env: Env)
    requires done <= w.m.Keys && key in w.m
    ensures UnknownOver(w, done + {key}, parent, env) ==
            UnknownOver(w, done, parent, env) + EntryUnknown(key, w.m[key], parent, env)
  {}

  lemma UnknownAppend(ws: seq<Where>, w: Where, parent: string, env: Env)
    ensures UnknownIn(ws + [w], parent, env) == UnknownIn(ws, parent, env) + UnknownFields(w, parent, env)
  {
    var all := ws + [w];
    forall x
      ensures x in UnknownIn(all, parent, env) <==> x in UnknownIn(ws, parent, env) + UnknownFields(w, parent, env)
    {
      if x in UnknownIn(ws, parent, env) {
        var i :| 0 <= i < |ws| && x in UnknownFields(ws[i], parent, env);
        assert all[i] == ws[i];
      }
      if x in UnknownFields(w, parent, env) {
        assert all[|ws|] == w;
      }
    }
  }

  lemma CodesGrow(w: Where, done: set<Key>, key: Key, parent: string, env: Env)
    requires done <= w.m.Keys && key in w.m
    ensures CodesOver(w, done + {key}, parent, env) ==
            CodesOver(w, done, parent, env) + EntryCodes(key, w.m[key], parent, env)
  {}

  lemma CodesAppend(ws: seq<Where>, w: Where, parent: string, env: Env)
    ensures CodesIn(ws + [w], parent, env) == CodesIn(ws, parent, env) + CodesOf(w, parent, env)
  {
    var all := ws + [w];
    forall x ensures x in CodesIn(all, parent, env) <==> x in CodesIn(ws, parent, env) + CodesOf(w, parent, env) {
      if x in CodesIn(ws, parent, env) {
        var i :| 0 <= i < |ws| && x in CodesOf(ws[i], parent, env);
        assert all[i] == ws[i];
      }
      if x in CodesOf(w, parent, env) {
        assert all[|ws|] == w;
      }
    }
  }

  /** The errors reported are the codes met, flattened. */
  ghost predicate Coded(r: Outcome, w: Where, parent: string, env: Env) {
    match r
    case Crash => true
    case Fail(_, errors) => Elements(errors) == CodesOf(w, parent, env)
    case Success(_, _) => CodesOf(w, parent, env) == {}
  }

  /** Everything a call on w promises about its outcome. */
  ghost predicate Compiled(r: Outcome, w: Where, parent: string, env: Env) {
    match r
    case Crash => StatusOf(w, parent, env) == Crashes
    case Fail(warnings, errors) =>
      StatusOf(w, parent, env) == Rejects && errors != [] && Elements(warnings) == UnknownFields(w, parent, env)
    case Success(q, warnings) =>
      && StatusOf(w, parent, env) == (if q.m == map[] then Empty else Full)
      && IsQuery(q, w, parent, env)
      && Elements(warnings) == UnknownFields(w, parent, env)
  }

  // ----- the compiler -----

  method ConvertItems(items: seq<Value>, convert: Value -> Option<Value>) returns (r: Option<seq<Value>>)
    ensures r == ConvertAll(items, convert)
  {
    var arr: seq<Value> := [];
    for i := 0 to |items|
      invariant ConvertAll(items[..i], convert) == Some(arr)
    {
      var el := convert(items[i]);
      assert items[..i + 1][..i] == items[..i];
      if el.None? {
        assert ConvertAll(items, convert).None?;
        return None;
      }
      arr := arr + [el.value];
    }
    assert items[..|items|] == items;
    r := Some(arr);
  }

  method ConvertOperand(f: Field, key: Key, v: Value, env: Env) returns (r: Option<Value>)
    ensures r == Convert(f, key, v, env)
  {
    if f.dataType != DT_OBJECT_ID && f.dataType != DT_DATE {
      return Some(v);
    }
    var isId := f.dataType == DT_OBJECT_ID;
    var convert := x => if isId then ToObjectId(x, env) else ToInstant(x, env);
    if key.Inq? || key.Nin? {
      if !IsSlice(v) || !(isId || v.dynamic) {
        return None;
      }
      var items := ConvertItems(ItemsOf(v), convert);
      return if items.Some? then Some(Appended(items.value, false)) else None;
    }
    return if f.isPointer && v.Null? then Some(Null) else convert(v);
  }

  lemma SpecialCompiled(w: Where, parent: string, env: Env)
    requires Special(w) && WHERE_CLAUSE !in w.m
    requires Exists in w.m ==> w.m[Exists].Atom? && w.m[Exists].v.Bool?
    ensures Compiled(Success(SpecialQuery(w), []), w, parent, env)
  {
    assert OpExists in SpecialQuery(w).m || OpNot in SpecialQuery(w).m || OpRegex in SpecialQuery(w).m;
  }

  /** What the keys visited so far have given. */
  ghost predicate Visiting(q: Query, warnings: seq<string>, errors: seq<string>, w: Where, done: set<Key>,
          parent: string, env: Env)
    requires done <= w.m.Keys
  {
    && (forall k :: k in done ==> EntryStatus(k, w.m[k], parent, env) != Crashes)
    && (errors != [] <==> exists k :: k in done && EntryStatus(k, w.m[k], parent, env) == Rejects)
    && IsQueryOver(q, w, done, parent, env)
    && Elements(warnings) == UnknownOver(w, done, parent, env)
  }

  lemma VisitingGoesOn(q: Query, warnings: seq<string>, errors: seq<string>, w: Where, done: set<Key>, key: Key,
          entry: Entry, q': Query, parent: string, env: Env)
    requires done <= w.m.Keys && key in w.m && Visiting(q, warnings, errors, w, done, parent, env)
    requires entry.Step? && EntryCompiled(entry, key, w.m[key], parent, env)
    requires if entry.emitted.Some? then IsQueryOver(q', w, done + {key}, parent, env) else q' == q
    ensures Visiting(q', warnings + entry.warnings, errors + entry.errors, w, done + {key}, parent, env)
  {
    UnknownGrows(w, done, key, parent, env);
    ElementsAppend(warnings, entry.warnings);
    if entry.errors != [] { assert EntryStatus(key, w.m[key], parent, env) == Rejects; }
  }

  lemma AllVisited(q: Query, warnings: seq<string>, errors: seq<string>, w: Where, parent: string, env: Env)
    requires WHERE_CLAUSE !in w.m && !Special(w) && Visiting(q, warnings, errors, w, w.m.Keys, parent, env)
    ensures Compiled(if errors != [] then Fail(warnings, errors) else Success(q, warnings), w, parent, env)
  {
    if errors == [] && q.m != map[] {
      var name :| name in q.m;
      var k := SourceOf(q, w, name, parent, env);
    }
  }

  method BuildWhere(w: Where, parent: string, env: Env) returns (r: Outcome)
    ensures Compiled(r, w, parent, env)
    ensures Coded(r, w, parent, env)
    decreases w
  {
    if WHERE_CLAUSE in w.m {
      return Fail([], [WHERE_CLAUSE_NOT_ALLOWED]);
    }
    if Exists in w.m && !(w.m[Exists].Atom? && w.m[Exists].v.Bool?) {
      return Fail([], [INVALID_EXISTS_CONDITION]);
    }
    if Special(w) {
      SpecialCompiled(w, parent, env);
      return Success(SpecialQuery(w), []);
    }
    var q := Query(map[]);
    var warnings: seq<string> := [];
    var errors: seq<string> := [];
    var remaining := w.m.Keys;
    ghost var done: set<Key> := {};
    while remaining != {}
      invariant remaining !! done && remaining + done == w.m.Keys
      invariant Visiting(q, warnings, errors, w, done, parent, env)
      invariant Elements(errors) == CodesOver(w, done, parent, env)
    {
      var key :| key in remaining;
      var entry := BuildEntry(key, w.m[key], parent, env);
      if entry.Halt? {
        return Crash;
      }
      ghost var before := q;
      if entry.emitted.Some? {
        q := AddEntry(q, w, done, key, entry.emitted.value, parent, env);
      }
      VisitingGoesOn(before, warnings, errors, w, done, key, entry, q, parent, env);
      CodesGrow(w, done, key, parent, env);
      ElementsAppend(errors, entry.errors);
      warnings, errors := warnings + entry.warnings, errors + entry.errors;
      remaining, done := remaining - {key}, done + {key};
    }
    assert done == w.m.Keys;
    AllVisited(q, warnings, errors, w, parent, env);
    r := if errors != [] then Fail(warnings, errors) else Success(q, warnings);
  }

  /** What one key contributes; Halt is a panic. */
  datatype Entry = Halt | Step(emitted: Option<MVal>, warnings: seq<string>, errors: seq<string>)

  ghost predicate EntryCompiled(r: Entry, k: Key, n: Node, parent: string, env: Env) {
    match r
    case Halt => EntryStatus(k, n, parent, env) == Crashes
    case Step(emitted, warnings, errors) =>
      && EntryStatus(k, n, parent, env) == (if errors != [] then Rejects else if emitted.Some? then Full else Empty)
      && (emitted.Some? && errors == [] ==> IsEntry(emitted.value, k, n, parent, env))
      && (errors != [] ==> emitted.None?)
      && Elements(warnings) == EntryUnknown(k, n, parent, env)
  }

  ghost predicate EntryCoded(r: Entry, k: Key, n: Node, parent: string, env: Env) {
    r.Step? ==> Elements(r.errors) == EntryCodes(k, n, parent, env)
  }

  function AddEntry(q: Query, w: Where, ghost done: set<Key>, key: Key, v: MVal, parent: string, env: Env): (r: Query)
    requires done <= w.m.Keys && key in w.m
    requires IsQueryOver(q, w, done, parent, env)
    requires Emits(key, w.m[key], parent, env) && IsEntry(v, key, w.m[key], parent, env)
    ensures IsQueryOver(r, w, done + {key}, parent, env)
  {
    Query(q.m[NameOf(key, w.m[key], parent, env) := v])
  }

  /** A nested object is stored unless it put nothing into its query. */
  function Nested(sub: Outcome): Entry {
    match sub
    case Crash => Halt
    case Fail(warnings, errors) => Step(None, warnings, errors)
    case Success(q, warnings) => Step(if |q.m| > 0 then Some(Doc(q)) else None, warnings, [])
  }

  lemma NestedCompiled(sub: Outcome, key: Key, w: Where, parent: string, env: Env)
    requires Visited(key, env) && Compiled(sub, w, Text(key), env) && Coded(sub, w, Text(key), env)
    ensures EntryCompiled(Nested(sub), key, Sub(w), parent, env) && EntryCoded(Nested(sub), key, Sub(w), parent, env)
  {}

  /** An operand that cannot be converted is dropped. */
  function Converted(operand: Option<Value>): Entry {
    Step(if operand.Some? then Some(Lit(operand.value)) else None, [], [])
  }

  lemma OperandCompiled(key: Key, v: Value, parent: string, env: Env)
    requires Visited(key, env) && FieldFor(key, parent, env).Some?
    ensures var r := Converted(Convert(FieldFor(key, parent, env).value, key, v, env));
            EntryCompiled(r, key, Atom(v), parent, env) && EntryCoded(r, key, Atom(v), parent, env)
  {}

  lemma PassedOver(key: Key, n: Node, parent: string, env: Env)
    requires !Visited(key, env)
    ensures var r := Step(None, if Skipped(key) then [] else [Text(key)], []);
            EntryCompiled(r, key, n, parent, env) && EntryCoded(r, key, n, parent, env)
  {}

  lemma ListCompiled(r: Entry, key: Key, ws: seq<Where>, parent: string, env: Env)
    requires Visited(key, env) && GroupCompiled(r, ws, parent, env)
    requires r.Step? ==> Elements(r.errors) == GroupCodes(ws, parent, env)
    ensures EntryCompiled(r, key, Group(ws), parent, env) && EntryCoded(r, key, Group(ws), parent, env)
  {}

  method BuildEntry(key: Key, n: Node, parent: string, env: Env) returns (r: Entry)
    ensures EntryCompiled(r, key, n, parent, env)
    ensures EntryCoded(r, key, n, parent, env)
    decreases n
  {
    if key.Dollar? {
      PassedOver(key, n, parent, env);
      return Step(None, [], []);
    }
    var field := GetFieldIfExists(if IsOperator(key) then parent else Text(key), env.fields);
    if !IsOperator(key) && field.None? {
      PassedOver(key, n, parent, env);
      return Step(None, [Text(key)], []);
    }
    match n
    case Group(ws) =>
      r := BuildGroup(ws, parent, env);
      ListCompiled(r, key, ws, parent, env);
    case Sub(w) =>
      var sub := BuildWhere(w, Text(key), env);
      NestedCompiled(sub, key, w, parent, env);
      r := Nested(sub);
    case Atom(v) =>
      if field.None? {
        return Halt;
      }
      var operand := ConvertOperand(field.value, key, v, env);
      OperandCompiled(key, v, parent, env);
      r := Converted(operand);
  }

  ghost predicate GroupCompiled(r: Entry, ws: seq<Where>, parent: string, env: Env) {
    match r
    case Halt => GroupStatus(ws, parent, env) == Crashes
    case Step(emitted, warnings, errors) =>
      && GroupStatus(ws, parent, env) == (if errors != [] then Rejects else Full)
      && (emitted.Some? <==> errors == [])
      && (emitted.Some? ==> emitted.value.List? && IsList(emitted.value.qs, ws, parent, env))
      && Elements(warnings) == UnknownIn(ws, parent, env)
  }

  lemma MemberEnds(s: Status, ws: seq<Where>, w: Where, parent: string, env: Env)
    ensures AnyEnds(s, ws + [w], parent, env) <==> AnyEnds(s, ws, parent, env) || StatusOf(w, parent, env) == s
  {
    var all := ws + [w];
    if AnyEnds(s, ws, parent, env) {
      var i :| 0 <= i < |ws| && StatusOf(ws[i], parent, env) == s;
      assert all[i] == ws[i];
    }
    assert all[|ws|] == w;
  }

  /** The outcomes of the members before the current one. */
  ghost predicate Gathered(qs: seq<Query>, warnings: seq<string>, errors: seq<string>, ws: seq<Where>, parent: string,
          env: Env) {
    && !AnyEnds(Crashes, ws, parent, env)
    && (errors != [] <==> AnyEnds(Rejects, ws, parent, env))
    && (qs != [] <==> AnyEnds(Full, ws, parent, env))
    && IsList(qs, ws, parent, env)
    && Elements(warnings) == UnknownIn(ws, parent, env)
  }

  function Gather(qs: seq<Query>, member: Outcome): seq<Query> {
    if member.Success? && |member.query.m| > 0 then qs + [member.query] else qs
  }

  lemma GatherMember(qs: seq<Query>, warnings: seq<string>, errors: seq<string>, ws: seq<Where>, w: Where,
          member: Outcome, parent: string, env: Env)
    requires Gathered(qs, warnings, errors, ws, parent, env)
    requires Compiled(member, w, parent, env) && !member.Crash?
    ensures Gathered(Gather(qs, member), warnings + member.warnings,
                     if member.Fail? then errors + member.errors else errors, ws + [w], parent, env)
  {
    MemberEnds(Crashes, ws, w, parent, env);
    MemberEnds(Rejects, ws, w, parent, env);
    MemberEnds(Full, ws, w, parent, env);
    UnknownAppend(ws, w, parent, env);
    ElementsAppend(warnings, member.warnings);
    assert (ws + [w])[..|ws|] == ws;
    if member.Success? && |member.query.m| > 0 {
      assert (qs + [member.query])[..|qs|] == qs;
    }
  }

  lemma GatherCodes(errors: seq<string>, ws: seq<Where>, w: Where, member: Outcome, parent: string, env: Env)
    requires Elements(errors) == CodesIn(ws, parent, env) && Coded(member, w, parent, env) && !member.Crash?
    ensures Elements(if member.Fail? then errors + member.errors else errors) == CodesIn(ws + [w], parent, env)
  {
    CodesAppend(ws, w, parent, env);
    if member.Fail? { ElementsAppend(errors, member.errors); }
  }

  lemma GatheredAll(qs: seq<Query>, warnings: seq<string>, errors: seq<string>, ws: seq<Where>, parent: string,
          env: Env)
    requires Gathered(qs, warnings, errors, ws, parent, env) && Elements(errors) == CodesIn(ws, parent, env)
    ensures var all := if qs == [] then errors + [INVALID_AND_OR_CONDITION] else errors;
            && GroupCompiled(Step(if all == [] then Some(List(qs)) else None, warnings, all), ws, parent, env)
            && Elements(all) == GroupCodes(ws, parent, env)
  {
    ElementsAppend(errors, [INVALID_AND_OR_CONDITION]);
  }

  /** The members of an and/or list, one after the other. */
  method BuildGroup(ws: seq<Where>, parent: string, env: Env) returns (r: Entry)
    ensures GroupCompiled(r, ws, parent, env)
    ensures r.Step? ==> Elements(r.errors) == GroupCodes(ws, parent, env)
    decreases ws
  {
    var qs: seq<Query> := [];
    var warnings: seq<string> := [];
    var errors: seq<string> := [];
    for i := 0 to |ws|
      invariant Gathered(qs, warnings, errors, ws[..i], parent, env)
      invariant Elements(errors) == CodesIn(ws[..i], parent, env)
    {
      var member := BuildWhere(ws[i], parent, env);
      if member.Crash? {
        assert StatusOf(ws[i], parent, env) == Crashes;
        return Halt;
      }
      GatherMember(qs, warnings, errors, ws[..i], ws[i], member, parent, env);
      GatherCodes(errors, ws[..i], ws[i], member, parent, env);
      assert ws[..i + 1] == ws[..i] + [ws[i]];
      qs, warnings := Gather(qs, member), warnings + member.warnings;
      if member.Fail? {
        errors := errors + member.errors;
      }
    }
    assert ws[..|ws|] == ws;
    GatheredAll(qs, warnings, errors, ws, parent, env);
    if qs == [] {
      errors := errors + [INVALID_AND_OR_CONDITION];
    }
    r := Step(if errors == [] then Some(List(qs)) else None, warnings, errors);
  }
}
