/** What processing a body does to its value: one pass down the tree in which the tags decide, at every step, which
    functions reach the strings below. */
module BodyProcessor {
  import opened Wrappers
  import opened ProcessorCache

  datatype Leaf = Str(s: string) | Nil | Other(o: int)

  /** A map lists its keys in the order in which they will be visited. */
  datatype Kind = Pointer | Struct(ty: TypeId) | Slice | Array | Map(keys: seq<string>)

  datatype Value = VLeaf(leaf: Leaf) | VBranch(kind: Kind, kids: seq<Value>)

  /** Which processors run: both families, one of them, or an operator name that does not exist. */
  datatype Op = Both | Normalize | Sanitize | Unknown

  /** How the code looks at the value it has reached: not at all; as a possible string; as a value to process once
      pointers are behind it; as a value to process; as a container whose elements are to be processed. */
  datatype Mode = Off | Text(fs: seq<Fn>) | Inner(fs: seq<Fn>) | Apply(fs: seq<Fn>) | Dive(fs: seq<Fn>)

  type Metas = map<TypeId, Option<Meta>>

  function FuncsOf(f: CachedField, op: Op): seq<Fn> {
    var normalize := if f.normalize.Some? then f.normalize.value.funcs else [];
    var sanitize := if f.sanitize.Some? then f.sanitize.value.funcs else [];
    match op
    case Both => normalize + sanitize
    case Normalize => normalize
    case Sanitize => sanitize
    case Unknown => []
  }

  /** Either tag may ask for a dive, whichever operator runs. */
  predicate AnyDive(f: CachedField) {
    (f.normalize.Some? && f.normalize.value.dive) || (f.sanitize.Some? && f.sanitize.value.dive)
  }

  function FieldMeta(fields: seq<CachedField>, i: nat): Option<CachedField> {
    if fields == [] then None
    else if fields[|fields| - 1].index == i then Some(fields[|fields| - 1])
    else FieldMeta(fields[..|fields| - 1], i)
  }

  function ModeOf(f: CachedField, op: Op): Mode {
    if AnyDive(f) then Dive(FuncsOf(f, op)) else Apply(FuncsOf(f, op))
  }

  function FieldMode(ty: TypeId, i: nat, op: Op, metas: Metas): Mode {
    if ty !in metas || metas[ty].None? then Off
    else match FieldMeta(metas[ty].value.fields, i)
         case None => Off
         case Some(f) => ModeOf(f, op)
  }

  /** How element `i` of a branch is looked at, given how the branch is. */
  function Child(mode: Mode, kind: Kind, i: nat, op: Op, metas: Metas): Mode {
    if kind.Struct? then
      if mode.Off? || mode.Text? then Off else FieldMode(kind.ty, i, op, metas)
    else match mode
         case Apply(fs) => if kind.Pointer? then Inner(fs) else Off
         case Inner(fs) => if kind.Pointer? then Text(fs) else Off
         case Dive(fs) => if kind.Pointer? then Inner([]) else Apply(fs)
         case _ => Off
  }

  function Functions(mode: Mode): seq<Fn> {
    match mode
    case Text(fs) => fs
    case Inner(fs) => fs
    case Apply(fs) => fs
    case _ => []
  }

  function RunAll(fs: seq<Fn>, s: string, u: TextLib): string {
    if fs == [] then s else Run(fs[|fs| - 1], RunAll(fs[..|fs| - 1], s, u), u)
  }

  function TreatLeaf(fs: seq<Fn>, leaf: Leaf, u: TextLib): Leaf {
    if leaf.Str? then Str(RunAll(fs, leaf.s, u)) else leaf
  }

  function Treat(mode: Mode, v: Value, op: Op, metas: Metas, u: TextLib): Value
    decreases v, 1
  {
    match v
    case VLeaf(leaf) => VLeaf(TreatLeaf(Functions(mode), leaf, u))
    case VBranch(kind, kids) => VBranch(kind, TreatAll(mode, kind, kids, op, metas, u))
  }

  function TreatAll(mode: Mode, kind: Kind, kids: seq<Value>, op: Op, metas: Metas, u: TextLib): (r: seq<Value>)
    ensures |r| == |kids|
    ensures forall i | 0 <= i < |kids| :: r[i] == Treat(Child(mode, kind, i, op, metas), kids[i], op, metas, u)
    decreases kids
  {
    if kids == [] then []
    else
      var n := |kids| - 1;
      TreatAll(mode, kind, kids[..n], op, metas, u) + [Treat(Child(mode, kind, n, op, metas), kids[n], op, metas, u)]
  }

  /** Every struct that is entered has a usable type, and the operator exists. */
  predicate Clean(mode: Mode, v: Value, op: Op, metas: Metas)
    decreases v
  {
    v.VBranch? ==>
      && (v.kind.Struct? && !mode.Off? && !mode.Text? ==> !op.Unknown? && v.kind.ty in metas && metas[v.kind.ty].Some?)
      && forall i | 0 <= i < |v.kids| :: Clean(Child(mode, v.kind, i, op, metas), v.kids[i], op, metas)
  }

  // What processing keeps

  predicate SameShape(a: Value, b: Value)
    decreases a
  {
    match (a, b)
    case (VLeaf(x), VLeaf(y)) => x == y || (x.Str? && y.Str?)
    case (VBranch(k, xs), VBranch(l, ys)) => k == l && |xs| == |ys|
      && forall i | 0 <= i < |xs| :: SameShape(xs[i], ys[i])
    case _ => false
  }

  /** Lengths, map keys, nils and all leaves that are not strings stay as they are. */
  lemma {:induction false} ShapeIsKept(mode: Mode, v: Value, op: Op, metas: Metas, u: TextLib)
    ensures SameShape(v, Treat(mode, v, op, metas, u))
    decreases v
  {
    if v.VBranch? {
      forall i | 0 <= i < |v.kids|
        ensures SameShape(v.kids[i], Treat(Child(mode, v.kind, i, op, metas), v.kids[i], op, metas, u))
      {
        ShapeIsKept(Child(mode, v.kind, i, op, metas), v.kids[i], op, metas, u);
      }
    }
  }

  /** What the code does not look at stays as it is. */
  lemma {:induction false} OffIsIdentity(mode: Mode, v: Value, op: Op, metas: Metas, u: TextLib)
    requires mode.Off? || (mode.Dive? && v.VLeaf?) || (v.VLeaf? && Functions(mode) == [])
    ensures Treat(mode, v, op, metas, u) == v && Clean(mode, v, op, metas)
    decreases v
  {
    if v.VBranch? {
      forall i | 0 <= i < |v.kids|
        ensures Treat(Child(mode, v.kind, i, op, metas), v.kids[i], op, metas, u) == v.kids[i]
             && Clean(Child(mode, v.kind, i, op, metas), v.kids[i], op, metas)
      {
        OffIsIdentity(Off, v.kids[i], op, metas, u);
      }
    }
  }

  // The same from the point of view of one leaf

  function LeafAt(v: Value, path: seq<nat>): Option<Leaf>
    decreases |path|
  {
    match v
    case VLeaf(leaf) => if path == [] then Some(leaf) else None
    case VBranch(_, kids) => if path == [] || path[0] >= |kids| then None else LeafAt(kids[path[0]], path[1..])
  }

  /** The functions that reach a leaf, found by walking down the path alone. */
  function Reaching(mode: Mode, v: Value, path: seq<nat>, op: Op, metas: Metas): seq<Fn>
    decreases |path|
  {
    match v
    case VLeaf(_) => Functions(mode)
    case VBranch(kind, kids) =>
      if path == [] || path[0] >= |kids| then []
      else Reaching(Child(mode, kind, path[0], op, metas), kids[path[0]], path[1..], op, metas)
  }

  /** Every leaf ends up as its own functions leave it, independently of all others. */
  lemma {:induction false} LeafByLeaf(mode: Mode, v: Value, path: seq<nat>, op: Op, metas: Metas, u: TextLib)
    ensures LeafAt(Treat(mode, v, op, metas, u), path)
         == match LeafAt(v, path)
            case None => None
            case Some(leaf) => Some(TreatLeaf(Reaching(mode, v, path, op, metas), leaf, u))
    decreases |path|
  {
    if v.VBranch? && path != [] && path[0] < |v.kids| {
      LeafByLeaf(Child(mode, v.kind, path[0], op, metas), v.kids[path[0]], path[1..], op, metas, u);
    }
  }

  /** An untagged field of a processed struct stays as it is, whatever is in it. */
  lemma {:induction false} UntaggedFieldStays(v: Value, i: nat, op: Op, metas: Metas, u: TextLib)
    requires v.VBranch? && v.kind.Struct? && i < |v.kids| && v.kind.ty in metas && metas[v.kind.ty].Some?
    requires FieldMeta(metas[v.kind.ty].value.fields, i).None?
    ensures Treat(Inner([]), v, op, metas, u).kids[i] == v.kids[i]
  {
    OffIsIdentity(Off, v.kids[i], op, metas, u);
  }

  /** A tagged struct field ignores its own functions: only the tags inside count. */
  lemma {:induction false} StructFieldIgnoresItsFunctions(fs: seq<Fn>, v: Value, op: Op, metas: Metas, u: TextLib)
    requires v.VBranch? && v.kind.Struct?
    ensures Treat(Apply(fs), v, op, metas, u) == Treat(Inner([]), v, op, metas, u) == Treat(Dive(fs), v, op, metas, u)
  {
    var (a, b) := (Treat(Apply(fs), v, op, metas, u), Treat(Inner([]), v, op, metas, u));
    var c := Treat(Dive(fs), v, op, metas, u);
    assert forall i | 0 <= i < |v.kids| :: a.kids[i] == b.kids[i] == c.kids[i];
  }

  /** Running the normalizers and then the sanitizers over a list of functions is running both. */
  lemma {:induction false} RunsJoin(a: seq<Fn>, b: seq<Fn>, s: string, u: TextLib)
    ensures RunAll(a + b, s, u) == RunAll(b, RunAll(a, s, u), u)
  {
    if b == [] {
      assert a + b == a;
    } else {
      RunsJoin(a, b[..|b| - 1], s, u);
      assert (a + b)[..|a + b| - 1] == a + b[..|b| - 1];
    }
  }

  /** How two modes with the same standing relate when the second runs what the first and a third run together. */
  predicate Splits(both: Mode, first: Mode, second: Mode) {
    match (both, first, second)
    case (Off, Off, Off) => true
    case (Text(c), Text(a), Text(b)) => c == a + b
    case (Inner(c), Inner(a), Inner(b)) => c == a + b
    case (Apply(c), Apply(a), Apply(b)) => c == a + b
    case (Dive(c), Dive(a), Dive(b)) => c == a + b
    case _ => false
  }

  lemma {:induction false} ChildSplits(both: Mode, first: Mode, second: Mode, kind: Kind, i: nat, metas: Metas)
    requires Splits(both, first, second)
    ensures Splits(Child(both, kind, i, Both, metas), Child(first, kind, i, Normalize, metas),
                   Child(second, kind, i, Sanitize, metas))
  {
    var none: seq<Fn> := [];
    assert none + none == none;
  }

  /** One pass with both operators is a pass that normalizes followed by one that sanitizes. */
  lemma {:induction false} OnePassIsTwo(both: Mode, first: Mode, second: Mode, v: Value, metas: Metas, u: TextLib)
    requires Splits(both, first, second)
    ensures Treat(both, v, Both, metas, u)
         == Treat(second, Treat(first, v, Normalize, metas, u), Sanitize, metas, u)
    decreases v
  {
    match v
    case VLeaf(leaf) =>
      var none: seq<Fn> := [];
      assert none + none == none;
      if leaf.Str? {
        RunsJoin(Functions(first), Functions(second), leaf.s, u);
      }
    case VBranch(kind, kids) =>
      var (c, a) := (Treat(both, v, Both, metas, u), Treat(first, v, Normalize, metas, u));
      var b := Treat(second, a, Sanitize, metas, u);
      forall i | 0 <= i < |kids| ensures c.kids[i] == b.kids[i] {
        ChildSplits(both, first, second, kind, i, metas);
        OnePassIsTwo(Child(both, kind, i, Both, metas), Child(first, kind, i, Normalize, metas),
                     Child(second, kind, i, Sanitize, metas), kids[i], metas, u);
      }
      assert c.kids == b.kids;
  }

}
