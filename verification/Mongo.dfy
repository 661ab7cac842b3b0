/** The fragment of MongoDB's query language that the compiler targets: its
    documents, its matcher, and which query documents the server accepts.
    Stored documents are flat maps from dotted paths to values; array-valued
    fields are compared as whole values. */
module Mongo {
  import opened Wrappers
  import opened Lbq

  /** A value in a query document. `Raw` is an lbq tree handed over uncompiled. */
  datatype MVal = Lit(v: Value) | Doc(q: Query) | List(qs: seq<Query>) | Raw(n: Node)

  /** A key of a query document. A stored name that starts with a dollar sign is
      no operator of the fragment, and the server never accepts it. */
  datatype QueryKey =
    | OpAnd | OpOr
    | OpEq | OpNe | OpGt | OpGte | OpLt | OpLte | OpIn | OpNin
    | OpExists | OpRegex | OpOptions | OpNot | OpType
    | Stored(name: string)

  datatype Query = Query(m: map<QueryKey, MVal>)

  type Document = map<string, Value>

  function Operand(ops: Query, k: QueryKey): Value {
    if k in ops.m && ops.m[k].Lit? then ops.m[k].v else Null
  }

  predicate Matches(q: Query, d: Document, env: Env)
    decreases q
  {
    forall k | k in q.m :: MatchesEntry(k, q.m[k], d, env)
  }

  predicate MatchesEntry(k: QueryKey, v: MVal, d: Document, env: Env)
    decreases v
  {
    match v
    case List(qs) =>
      if k.OpAnd? then AllMatch(qs, d, env) else k.OpOr? && AnyMatches(qs, d, env)
    case Lit(x) => k.Stored? && MatchesOperand(Wire(x), Lookup(d, k.name), env)
    case Doc(ops) => k.Stored? && MatchesOps(ops, Lookup(d, k.name), env)
    case Raw(_) => false
  }

  predicate AllMatch(qs: seq<Query>, d: Document, env: Env)
    decreases qs
  {
    forall i | 0 <= i < |qs| :: Matches(qs[i], d, env)
  }

  predicate AnyMatches(qs: seq<Query>, d: Document, env: Env)
    decreases qs
  {
    exists i | 0 <= i < |qs| :: Matches(qs[i], d, env)
  }

  lemma AppendQuery(qs: seq<Query>, q: Query, d: Document, env: Env)
    ensures AllMatch(qs + [q], d, env) <==> AllMatch(qs, d, env) && Matches(q, d, env)
    ensures AnyMatches(qs + [q], d, env) <==> AnyMatches(qs, d, env) || Matches(q, d, env)
  {
    var all := qs + [q];
    assert all[|qs|] == q && forall i :: 0 <= i < |qs| ==> all[i] == qs[i];
  }

  predicate MatchesOps(ops: Query, x: Option<Value>, env: Env)
    decreases ops
  {
    forall k | k in ops.m :: MatchesOp(k, ops.m[k], Operand(ops, OpOptions), x, env)
  }

  predicate MatchesOp(k: QueryKey, v: MVal, options: Value, x: Option<Value>, env: Env)
    decreases v
  {
    match v
    case Doc(inner) => k.OpNot? && !MatchesOps(inner, x, env)
    case Lit(a) => MatchesLit(k, Wire(a), options, x, env)
    case _ => false
  }

  /** One operator with the operand the server is sent. */
  predicate MatchesLit(k: QueryKey, a: Value, options: Value, x: Option<Value>, env: Env) {
    match k
    case OpEq => Equals(x, a)
    case OpNe => !Equals(x, a)
    case OpGt => Above(x, a)
    case OpGte => Above(x, a) || Equals(x, a)
    case OpLt => Below(x, a)
    case OpLte => Below(x, a) || Equals(x, a)
    case OpIn => a.Slice? && Among(x, a.items)
    case OpNin => a.Slice? && !Among(x, a.items)
    case OpExists => a.Bool? && (a.b <==> x.Some?)
    case OpRegex => x.Some? && env.regex(a, options, x.value)
    case OpType => a == Int(10) && x == Some(Null)
    case OpOptions => true
    case _ => false
  }

  // ----- documents as operands -----

  /** A document some key of which starts with a dollar sign. Bound to a field name it is
      read as operators, not as a value. The server goes by the first key; documents here have
      no order, and one with operators and other keys counts as not accepted. */
  predicate DollarDoc(v: Value) { v.Subdocument? && exists s :: s in v.m && "$" <= s }

  function OperatorNamed(s: string): QueryKey {
    match s
    case "$eq" => OpEq
    case "$ne" => OpNe
    case "$gt" => OpGt
    case "$gte" => OpGte
    case "$lt" => OpLt
    case "$lte" => OpLte
    case "$in" => OpIn
    case "$nin" => OpNin
    case "$exists" => OpExists
    case "$regex" => OpRegex
    case "$options" => OpOptions
    case "$not" => OpNot
    case "$type" => OpType
    case _ => Stored(s)
  }

  predicate MatchesOperand(v: Value, x: Option<Value>, env: Env) {
    if DollarDoc(v) then MatchesDoc(v, x, env) else Equals(x, v)
  }

  predicate MatchesDoc(v: Value, x: Option<Value>, env: Env)
    requires v.Subdocument?
    decreases v, 0
  {
    var options := if "$options" in v.m then v.m["$options"] else Null;
    forall s | s in v.m :: MatchesNamed(OperatorNamed(s), v.m[s], options, x, env)
  }

  predicate MatchesNamed(k: QueryKey, v: Value, options: Value, x: Option<Value>, env: Env)
    decreases v, 1
  {
    if k.OpNot? then v.Subdocument? && !MatchesDoc(v, x, env) else MatchesLit(k, v, options, x, env)
  }

  // ----- what the server accepts -----

  /** Query documents the server accepts: field names bound to values or to
      non-empty operator documents, and and/or over non-empty lists. */
  predicate Accepted(q: Query)
    decreases q
  {
    forall k | k in q.m :: AcceptedEntry(k, q.m[k])
  }

  predicate AcceptedEntry(k: QueryKey, v: MVal)
    decreases v
  {
    match v
    case List(qs) => (k.OpAnd? || k.OpOr?) && qs != [] && AllAccepted(qs)
    case Lit(x) => k.Stored? && !("$" <= k.name) && AcceptedOperand(Wire(x))
    case Doc(ops) => k.Stored? && !("$" <= k.name) && AcceptedOps(ops)
    case Raw(_) => false
  }

  predicate AllAccepted(qs: seq<Query>)
    decreases qs
  {
    forall i | 0 <= i < |qs| :: Accepted(qs[i])
  }

  predicate AcceptedOps(ops: Query)
    decreases ops
  {
    && ops.m != map[]
    && (OpOptions in ops.m ==> OpRegex in ops.m)
    && forall k | k in ops.m :: AcceptedOp(k, ops.m[k])
  }

  predicate AcceptedOp(k: QueryKey, v: MVal)
    decreases v
  {
    !k.Stored? && !k.OpAnd? && !k.OpOr? &&
    match v
    case Lit(a) => AcceptedLit(k, Wire(a))
    case Doc(inner) => k.OpNot? && AcceptedOps(inner)
    case _ => false
  }

  /** Lists must be there and hold no operators, patterns and their options are strings. */
  predicate AcceptedLit(k: QueryKey, a: Value) {
    match k
    case OpAnd => false
    case OpOr => false
    case OpNot => false
    case Stored(_) => false
    case OpIn => a.Slice? && forall i | 0 <= i < |a.items| :: !DollarDoc(a.items[i])
    case OpNin => a.Slice? && forall i | 0 <= i < |a.items| :: !DollarDoc(a.items[i])
    case OpExists => a.Bool?
    case OpRegex => a.Str?
    case OpOptions => a.Str?
    case _ => true
  }

  predicate AcceptedOperand(v: Value) { DollarDoc(v) ==> AcceptedDoc(v) }

  /** However the keys are ordered, all of them are operators of the fragment. */
  predicate AcceptedDoc(v: Value)
    requires v.Subdocument?
    decreases v, 0
  {
    && v.m != map[]
    && ("$options" in v.m ==> "$regex" in v.m)
    && forall s | s in v.m :: AcceptedNamed(OperatorNamed(s), v.m[s])
  }

  predicate AcceptedNamed(k: QueryKey, v: Value)
    decreases v, 1
  {
    if k.OpNot? then v.Subdocument? && AcceptedDoc(v) else AcceptedLit(k, v)
  }
}
