/** The processor at work: values live in cells, are changed in place, and end up as the pure pass says. */
module BodyProcessorHeap {
  import opened Wrappers
  import opened ProcessorCache
  import opened BodyProcessor

  type Loc = nat

  /** One addressable place; elements are places of their own. */
  datatype Cell = CLeaf(leaf: Leaf) | CBranch(kind: Kind, kids: seq<Loc>)

  type Store = map<Loc, Cell>

  /** A value together with the places it occupies. */
  datatype Tree = TLeaf(loc: Loc, leaf: Leaf) | TBranch(loc: Loc, kind: Kind, kids: seq<Tree>)

  ghost function ValueOf(t: Tree): Value
    decreases t, 1
  {
    match t
    case TLeaf(_, leaf) => VLeaf(leaf)
    case TBranch(_, kind, kids) => VBranch(kind, ValuesOf(kids))
  }

  ghost function ValuesOf(ts: seq<Tree>): (vs: seq<Value>)
    ensures |vs| == |ts| && forall i | 0 <= i < |ts| :: vs[i] == ValueOf(ts[i])
    decreases ts
  {
    if ts == [] then [] else ValuesOf(ts[..|ts| - 1]) + [ValueOf(ts[|ts| - 1])]
  }

  ghost function Foot(t: Tree): set<Loc>
    decreases t, 1
  {
    {t.loc} + if t.TBranch? then FootAll(t.kids) else {}
  }

  ghost function FootAll(ts: seq<Tree>): set<Loc>
    decreases ts
  {
    set i, x | 0 <= i < |ts| && x in Foot(ts[i]) :: x
  }

  ghost function Locs(ts: seq<Tree>): seq<Loc> {
    seq(|ts|, i requires 0 <= i < |ts| => ts[i].loc)
  }

  /** The store holds the tree. */
  ghost predicate Stored(store: Store, t: Tree)
    decreases t
  {
    && t.loc in store
    && match t
       case TLeaf(loc, leaf) => store[loc] == CLeaf(leaf)
       case TBranch(loc, kind, kids) =>
         store[loc] == CBranch(kind, Locs(kids)) && forall i | 0 <= i < |kids| :: Stored(store, kids[i])
  }

  /** No place is shared. */
  ghost predicate Apart(t: Tree)
    decreases t
  {
    t.TBranch? ==> t.loc !in FootAll(t.kids) && AllApart(t.kids)
  }

  ghost predicate AllApart(ts: seq<Tree>)
    decreases ts
  {
    (forall i | 0 <= i < |ts| :: Apart(ts[i])) && Disjoint(ts)
  }

  /** Structs have the fields their type declares, pointers one target, maps one value per key. */
  ghost predicate Typed(t: Tree, types: Types)
    decreases t
  {
    t.TBranch? ==>
      && (match t.kind
          case Struct(ty) => ty in types && |types[ty]| == |t.kids|
          case Pointer => |t.kids| == 1
          case Map(keys) => |keys| == |t.kids|
          case _ => true)
      && forall i | 0 <= i < |t.kids| :: Typed(t.kids[i], types)
  }

  /** From `before` to `after`, nothing outside `foot` has changed or gone. */
  ghost predicate Untouched(before: Store, after: Store, foot: set<Loc>) {
    forall x | x in before :: x in after && (x !in foot ==> after[x] == before[x])
  }

  /** The tree occupies old places only within `foot`. */
  ghost predicate Within(t: Tree, before: Store, foot: set<Loc>) {
    forall x | x in Foot(t) && x in before :: x in foot
  }

  lemma {:induction false} StaysStored(before: Store, after: Store, foot: set<Loc>, t: Tree)
    requires Stored(before, t) && Untouched(before, after, foot) && Foot(t) !! foot
    ensures Stored(after, t)
    decreases t
  {
    if t.TBranch? {
      forall i | 0 <= i < |t.kids| ensures Stored(after, t.kids[i]) {
        StaysStored(before, after, foot, t.kids[i]);
      }
    }
  }

  lemma {:induction false} StoredIsThere(store: Store, t: Tree)
    requires Stored(store, t)
    ensures Foot(t) <= store.Keys
    decreases t
  {
    if t.TBranch? {
      forall i | 0 <= i < |t.kids| ensures Foot(t.kids[i]) <= store.Keys {
        StoredIsThere(store, t.kids[i]);
      }
    }
  }

  ghost predicate Holds(store: Store, t: Tree) { Stored(store, t) && Apart(t) }

  ghost predicate Disjoint(ts: seq<Tree>) {
    forall i, j | 0 <= i < j < |ts| :: Foot(ts[i]) !! Foot(ts[j])
  }

  /** Elements of `t` in the course of being processed: `now` is what has become of them since `before`. */
  ghost predicate Underway(before: Store, store: Store, t: Tree, now: seq<Tree>)
    requires t.TBranch?
  {
    && |now| == |t.kids|
    && (forall i | 0 <= i < |now| :: Holds(store, now[i]) && Within(now[i], before, Foot(t.kids[i])))
    && Disjoint(now)
    && t.loc in store && store[t.loc] == CBranch(t.kind, Locs(now))
    && Untouched(before, store, Foot(t))
  }

  /** A tree apart from the one just processed is still held, and apart from the result. */
  lemma {:induction false} OtherElement(store: Store, after: Store, other: Tree, was: Tree, done: Tree)
    requires Holds(store, other) && Foot(other) !! Foot(was)
    requires Untouched(store, after, Foot(was)) && Within(done, store, Foot(was))
    ensures Holds(after, other) && Foot(other) !! Foot(done)
  {
    StaysStored(store, after, Foot(was), other);
    StoredIsThere(store, other);
  }

  lemma {:induction false} WithinChains(before: Store, store: Store, was: Tree, done: Tree, foot: set<Loc>)
    requires Within(was, before, foot) && Within(done, store, Foot(was)) && before.Keys <= store.Keys
    ensures Within(done, before, foot)
  {
  }

  lemma {:induction false} UntouchedChains(before: Store, store: Store, after: Store, t: Tree, foot: set<Loc>)
    requires Untouched(before, store, foot) && Untouched(store, after, Foot(t)) && Within(t, before, foot)
    ensures Untouched(before, after, foot)
  {
  }

  lemma {:induction false} RootIsApart(before: Store, store: Store, t: Tree, now: seq<Tree>, i: nat)
    requires Holds(before, t) && t.TBranch? && Underway(before, store, t, now) && i < |now|
    ensures t.loc !in Foot(now[i]) && Within(now[i], before, Foot(t))
  {
    assert Within(now[i], before, Foot(t.kids[i]));
    assert Foot(t.kids[i]) <= FootAll(t.kids);
  }

  lemma {:induction false} OtherStays(before: Store, store: Store, after: Store, t: Tree, now: seq<Tree>, k: nat,
          done: Tree, i: nat)
    requires t.TBranch? && Underway(before, store, t, now) && k < |now| && i < |now| && i != k
    requires Untouched(store, after, Foot(now[k])) && Within(done, store, Foot(now[k]))
    ensures Holds(after, now[i]) && Foot(now[i]) !! Foot(done)
  {
    assert Foot(now[i]) !! Foot(now[k]);
    OtherElement(store, after, now[i], now[k], done);
  }

  /** Each element after the element at `k` has become `done` and the root has been stored again. */
  lemma {:induction false} ElementAfter(before: Store, store: Store, after: Store, t: Tree, now: seq<Tree>, k: nat,
          done: Tree, i: nat, root: Cell)
    requires Holds(before, t) && t.TBranch? && Underway(before, store, t, now) && k < |now| && i < |now|
    requires Untouched(store, after, Foot(now[k])) && Holds(after, done) && Within(done, store, Foot(now[k]))
    ensures Holds(after[t.loc := root], now[k := done][i]) && Within(now[k := done][i], before, Foot(t.kids[i]))
    ensures i != k ==> Foot(now[i]) !! Foot(done)
  {
    RootIsApart(before, store, t, now, i);
    if i != k {
      OtherStays(before, store, after, t, now, k, done, i);
    } else {
      WithinChains(before, store, now[k], done, Foot(t.kids[k]));
      assert Foot(t.kids[k]) <= FootAll(t.kids);
    }
    StaysStored(after, after[t.loc := root], {t.loc}, now[k := done][i]);
  }

  lemma {:induction false} DisjointStays(now: seq<Tree>, k: nat, done: Tree)
    requires Disjoint(now) && k < |now| && forall i | 0 <= i < |now| && i != k :: Foot(now[i]) !! Foot(done)
    ensures Disjoint(now[k := done])
  {
    var next := now[k := done];
    forall i, j | 0 <= i < j < |next| ensures Foot(next[i]) !! Foot(next[j]) {
      assert Foot(now[i]) !! Foot(now[j]);
    }
  }

  /** One element is replaced by what processing has left of it, at its old place or at another one. */
  lemma {:induction false} ElementReplaced(before: Store, store: Store, after: Store, t: Tree, now: seq<Tree>, k: nat,
          done: Tree)
    requires Holds(before, t) && t.TBranch? && Underway(before, store, t, now) && k < |now|
    requires Untouched(store, after, Foot(now[k])) && Holds(after, done) && Within(done, store, Foot(now[k]))
    ensures Underway(before, after[t.loc := CBranch(t.kind, Locs(now[k := done]))], t, now[k := done])
  {
    var next := now[k := done];
    var root := CBranch(t.kind, Locs(next));
    forall i | 0 <= i < |next|
      ensures Holds(after[t.loc := root], next[i]) && Within(next[i], before, Foot(t.kids[i]))
      ensures i != k ==> Foot(now[i]) !! Foot(done)
    {
      ElementAfter(before, store, after, t, now, k, done, i, root);
    }
    DisjointStays(now, k, done);
    ElementFailed(before, store, after, t, now, k);
  }

  lemma {:induction false} ElementDone(before: Store, store: Store, after: Store, t: Tree, now: seq<Tree>, k: nat,
          done: Tree)
    requires Holds(before, t) && t.TBranch? && Underway(before, store, t, now) && k < |now|
    requires Untouched(store, after, Foot(now[k])) && Holds(after, done) && Within(done, store, Foot(now[k]))
    requires done.loc == now[k].loc
    ensures Underway(before, after, t, now[k := done])
  {
    ElementReplaced(before, store, after, t, now, k, done);
    RootIsApart(before, store, t, now, k);
    assert Locs(now[k := done]) == Locs(now);
    assert after[t.loc := CBranch(t.kind, Locs(now))] == after;
  }

  /** Even when processing an element stops half-way, only places of the whole have been touched. */
  lemma {:induction false} ElementFailed(before: Store, store: Store, after: Store, t: Tree, now: seq<Tree>, k: nat)
    requires Holds(before, t) && t.TBranch? && Underway(before, store, t, now) && k < |now|
    requires Untouched(store, after, Foot(now[k]))
    ensures Untouched(before, after, Foot(t))
  {
    RootIsApart(before, store, t, now, k);
    UntouchedChains(before, store, after, now[k], Foot(t));
  }

  /** The elements together are the processed branch. */
  lemma {:induction false} BranchDone(before: Store, store: Store, t: Tree, now: seq<Tree>)
    requires Holds(before, t) && t.TBranch? && Underway(before, store, t, now)
    ensures var t' := TBranch(t.loc, t.kind, now);
            Holds(store, t') && Within(t', before, Foot(t))
  {
    var t' := TBranch(t.loc, t.kind, now);
    forall i | 0 <= i < |now| ensures t.loc !in Foot(now[i]) && Within(now[i], before, Foot(t)) {
      RootIsApart(before, store, t, now, i);
    }
    forall x | x in FootAll(now) ensures x != t.loc && (x in before ==> x in Foot(t)) {
      var i :| 0 <= i < |now| && x in Foot(now[i]);
    }
    assert Stored(store, t');
    assert Apart(t');
  }

  lemma {:induction false} BranchStarts(store: Store, t: Tree)
    requires Holds(store, t) && t.TBranch?
    ensures Underway(store, store, t, t.kids)
  {
    assert AllApart(t.kids);
    forall i | 0 <= i < |t.kids| ensures Holds(store, t.kids[i]) {
    }
  }

  // Progress, on values

  /** The part of the pure pass that concerns element `i` has been done. */
  ghost predicate ElementTreated(mode: Mode, t: Tree, now: seq<Tree>, i: nat, op: Op, metas: Metas, u: TextLib)
    requires t.TBranch? && |now| == |t.kids| && i < |now|
  {
    var child := Child(mode, t.kind, i, op, metas);
    && ValueOf(now[i]) == Treat(child, ValueOf(t.kids[i]), op, metas, u)
    && Clean(child, ValueOf(t.kids[i]), op, metas)
  }

  ghost predicate TreatedUpTo(mode: Mode, t: Tree, now: seq<Tree>, k: nat, op: Op, metas: Metas, u: TextLib)
    requires t.TBranch?
  {
    && |now| == |t.kids| && k <= |now|
    && (forall i | 0 <= i < k :: ElementTreated(mode, t, now, i, op, metas, u))
    && (forall i | k <= i < |now| :: now[i] == t.kids[i])
  }

  ghost predicate Enterable(mode: Mode, t: Tree, op: Op, metas: Metas)
    requires t.TBranch?
  {
    t.kind.Struct? && !mode.Off? && !mode.Text? ==> !op.Unknown? && t.kind.ty in metas && metas[t.kind.ty].Some?
  }

  lemma {:induction false} AllTreated(mode: Mode, t: Tree, now: seq<Tree>, op: Op, metas: Metas, u: TextLib)
    requires t.TBranch? && TreatedUpTo(mode, t, now, |t.kids|, op, metas, u) && Enterable(mode, t, op, metas)
    ensures ValueOf(TBranch(t.loc, t.kind, now)) == Treat(mode, ValueOf(t), op, metas, u)
    ensures Clean(mode, ValueOf(t), op, metas)
  {
    var v := ValueOf(t);
    forall i | 0 <= i < |t.kids|
      ensures ValuesOf(now)[i] == Treat(Child(mode, t.kind, i, op, metas), v.kids[i], op, metas, u)
           && Clean(Child(mode, t.kind, i, op, metas), v.kids[i], op, metas)
    {
      assert ElementTreated(mode, t, now, i, op, metas, u);
    }
    assert ValuesOf(now) == TreatAll(mode, t.kind, v.kids, op, metas, u);
  }

  lemma {:induction false} OneUnclean(mode: Mode, t: Tree, i: nat, op: Op, metas: Metas)
    requires t.TBranch? && i < |t.kids| && !Clean(Child(mode, t.kind, i, op, metas), ValueOf(t.kids[i]), op, metas)
    ensures !Clean(mode, ValueOf(t), op, metas)
  {
    assert ValueOf(t).kids[i] == ValueOf(t.kids[i]);
  }

  /** Elements that are not looked at count as treated. */
  lemma {:induction false} SkipElements(mode: Mode, t: Tree, now: seq<Tree>, k: nat, n: nat, op: Op, metas: Metas,
          u: TextLib)
    requires t.TBranch? && TreatedUpTo(mode, t, now, k, op, metas, u) && k <= n <= |now|
    requires forall i | k <= i < n :: Child(mode, t.kind, i, op, metas).Off?
    ensures TreatedUpTo(mode, t, now, n, op, metas, u)
  {
    forall i | 0 <= i < n ensures ElementTreated(mode, t, now, i, op, metas, u) {
      if i >= k {
        OffIsIdentity(Child(mode, t.kind, i, op, metas), ValueOf(t.kids[i]), op, metas, u);
      } else {
        assert ElementTreated(mode, t, now, i, op, metas, u);
      }
    }
  }

  lemma {:induction false} OneMore(mode: Mode, t: Tree, now: seq<Tree>, k: nat, done: Tree, op: Op, metas: Metas,
          u: TextLib)
    requires t.TBranch? && TreatedUpTo(mode, t, now, k, op, metas, u) && k < |now|
    requires ValueOf(done) == Treat(Child(mode, t.kind, k, op, metas), ValueOf(t.kids[k]), op, metas, u)
    requires Clean(Child(mode, t.kind, k, op, metas), ValueOf(t.kids[k]), op, metas)
    ensures TreatedUpTo(mode, t, now[k := done], k + 1, op, metas, u)
  {
    var next := now[k := done];
    forall i | 0 <= i < k + 1 ensures ElementTreated(mode, t, next, i, op, metas, u) {
      assert i < k ==> ElementTreated(mode, t, now, i, op, metas, u);
    }
  }

  // The metadata of fields

  ghost predicate Fits(fields: seq<CachedField>, n: nat) {
    && (forall i | 0 <= i < |fields| :: fields[i].index < n)
    && (forall i, j | 0 <= i < j < |fields| :: fields[i].index < fields[j].index)
  }

  lemma {:induction false} BuiltFits(decl: seq<FieldDecl>, tables: Tables)
    ensures Fits(Fields(decl, tables), |decl|)
  {
    if decl != [] {
      BuiltFits(decl[..|decl| - 1], tables);
    }
  }

  lemma {:induction false} FieldMetaAt(fields: seq<CachedField>, n: nat, j: nat)
    requires Fits(fields, n) && j < |fields|
    ensures FieldMeta(fields, fields[j].index) == Some(fields[j])
  {
    if j < |fields| - 1 {
      FieldMetaAt(fields[..|fields| - 1], n, j);
    }
  }

  lemma {:induction false} FieldMetaNone(fields: seq<CachedField>, i: nat)
    requires forall j | 0 <= j < |fields| :: fields[j].index != i
    ensures FieldMeta(fields, i) == None
  {
    if fields != [] {
      FieldMetaNone(fields[..|fields| - 1], i);
    }
  }

  ghost function MetasOf(types: Types, s: State): Metas {
    map ty | ty in types :: if ty in s.cache then Some(s.cache[ty]) else Build(types[ty], s.tables)
  }

  ghost predicate CacheFits(types: Types, cache: map<TypeId, Meta>) {
    forall ty | ty in cache :: ty in types && Fits(cache[ty].fields, |types[ty]|)
  }

  /** Loading a type's metadata changes no type's metadata. */
  lemma {:induction false} LoadKeepsMetas(types: Types, s: State, ty: TypeId)
    requires ty in types && CacheFits(types, s.cache)
    ensures MetasOf(types, Next(s, Use(ty), types)) == MetasOf(types, s)
    ensures CacheFits(types, Next(s, Use(ty), types).cache)
  {
    BuiltFits(types[ty], s.tables);
  }

  /** The step that puts a type into the cache. */
  ghost predicate FirstUse(states: seq<State>, actions: seq<Action>, types: Types, i: nat, ty: TypeId)
    requires IsRun(states, actions, types)
  {
    i < |actions| && actions[i] == Use(ty) && ty !in states[i].cache && ty in types && TypeOk(types[ty])
  }

  lemma {:induction false} EntryAges(states: seq<State>, actions: seq<Action>, types: Types, i: nat, j: nat, ty: TypeId)
    requires IsRun(states, actions, types) && i < j < |states| && FirstUse(states, actions, types, i, ty)
    ensures ty in states[j].cache
    ensures Some(states[j].cache[ty]) == Build(types[ty], states[j].tables) <==>
            !TypeNewer(types[ty], states[j].tables, states[i].tables)
  {
    assert states[i + 1] == Next(states[i], actions[i], types);
    NothingIsLost(states, actions, types, i + 1, j);
    NothingIsLost(states, actions, types, i, j);
    FieldsAge(types[ty], states[j].tables, states[i].tables);
  }

  /** Processing with the cache is processing with freshly built metadata exactly when no
      tag of a type has been given a new name since the type was first used. */
  lemma {:induction false} CachedIsUncached(states: seq<State>, actions: seq<Action>, types: Types, j: nat)
    requires IsRun(states, actions, types) && j < |states|
    ensures MetasOf(types, states[j]) == MetasOf(types, State(states[j].tables, map[])) <==>
            forall i, ty | 0 <= i < j && FirstUse(states, actions, types, i, ty) ::
              !TypeNewer(types[ty], states[j].tables, states[i].tables)
  {
    var (cached, rebuilt) := (MetasOf(types, states[j]), MetasOf(types, State(states[j].tables, map[])));
    if cached == rebuilt {
      forall i, ty | 0 <= i < j && FirstUse(states, actions, types, i, ty)
        ensures !TypeNewer(types[ty], states[j].tables, states[i].tables)
      {
        EntryAges(states, actions, types, i, j, ty);
        assert cached[ty] == rebuilt[ty];
      }
    } else {
      var ty :| ty in types && cached[ty] != rebuilt[ty];
      var i := CacheAgreement(states, actions, types, j, ty);
      assert FirstUse(states, actions, types, i, ty);
    }
  }

  // Strings

  /** What one processor does to a value: it changes a string, also behind one pointer. */
  function Once(fn: Fn, v: Value, u: TextLib): Value {
    if v.VLeaf? then VLeaf(TreatLeaf([fn], v.leaf, u))
    else if v.kind.Pointer? && |v.kids| == 1 && v.kids[0].VLeaf? then
      VBranch(v.kind, [VLeaf(TreatLeaf([fn], v.kids[0].leaf, u))])
    else v
  }

  function OnceEach(fs: seq<Fn>, v: Value, u: TextLib): Value {
    if fs == [] then v else Once(fs[|fs| - 1], OnceEach(fs[..|fs| - 1], v, u), u)
  }

  lemma {:induction false} RunOne(fn: Fn, s: string, u: TextLib)
    ensures RunAll([fn], s, u) == Run(fn, s, u)
  {
    assert [fn][..0] == [];
    assert RunAll([fn], s, u) == Run(fn, RunAll([], s, u), u);
  }

  lemma {:induction false} LeafAgain(fs: seq<Fn>, leaf: Leaf, u: TextLib)
    requires fs != []
    ensures TreatLeaf(fs, leaf, u) == TreatLeaf([fs[|fs| - 1]], TreatLeaf(fs[..|fs| - 1], leaf, u), u)
  {
    if leaf.Str? {
      RunOne(fs[|fs| - 1], RunAll(fs[..|fs| - 1], leaf.s, u), u);
    }
  }

  /** The loop over the functions does what the pass does in one go. */
  lemma {:induction false} OnceEachIsTreat(fs: seq<Fn>, v: Value, op: Op, metas: Metas, u: TextLib)
    requires v.VBranch? ==> !v.kind.Struct? && (v.kind.Pointer? ==> |v.kids| == 1)
    ensures Treat(Inner(fs), v, op, metas, u) == OnceEach(fs, v, u)
    ensures Clean(Inner(fs), v, op, metas)
  {
    if v.VBranch? {
      forall i | 0 <= i < |v.kids|
        ensures Clean(Child(Inner(fs), v.kind, i, op, metas), v.kids[i], op, metas)
        ensures v.kids[i].VBranch? || !v.kind.Pointer? ==>
                  Treat(Child(Inner(fs), v.kind, i, op, metas), v.kids[i], op, metas, u) == v.kids[i]
      {
        TextIsShallow(Child(Inner(fs), v.kind, i, op, metas), v.kids[i], op, metas, u);
      }
    }
    if v.VBranch? && !(v.kind.Pointer? && v.kids[0].VLeaf?) {
      assert Treat(Inner(fs), v, op, metas, u).kids == v.kids;
      OnceEachStays(fs, v, u);
    } else {
      OnceEachLeaf(fs, v, u);
      if v.VBranch? {
        assert Treat(Inner(fs), v, op, metas, u).kids == [VLeaf(TreatLeaf(fs, v.kids[0].leaf, u))];
      }
    }
  }

  lemma {:induction false} TextIsShallow(mode: Mode, v: Value, op: Op, metas: Metas, u: TextLib)
    requires mode.Off? || mode.Text?
    ensures Clean(mode, v, op, metas)
    ensures v.VBranch? || mode.Off? ==> Treat(mode, v, op, metas, u) == v
  {
    if mode.Off? {
      OffIsIdentity(mode, v, op, metas, u);
    } else if v.VBranch? {
      forall i | 0 <= i < |v.kids|
        ensures Clean(Child(mode, v.kind, i, op, metas), v.kids[i], op, metas)
        ensures Treat(Child(mode, v.kind, i, op, metas), v.kids[i], op, metas, u) == v.kids[i]
      {
        OffIsIdentity(Off, v.kids[i], op, metas, u);
      }
      assert Treat(mode, v, op, metas, u).kids == v.kids;
    }
  }

  lemma {:induction false} OnceEachStays(fs: seq<Fn>, v: Value, u: TextLib)
    requires v.VBranch? && !(v.kind.Pointer? && |v.kids| == 1 && v.kids[0].VLeaf?)
    ensures OnceEach(fs, v, u) == v
  {
    if fs != [] {
      OnceEachStays(fs[..|fs| - 1], v, u);
    }
  }

  lemma {:induction false} OnceEachLeaf(fs: seq<Fn>, v: Value, u: TextLib)
    requires v.VLeaf? || (v.kind.Pointer? && |v.kids| == 1 && v.kids[0].VLeaf?)
    ensures OnceEach(fs, v, u) == if v.VLeaf? then VLeaf(TreatLeaf(fs, v.leaf, u))
                                  else VBranch(v.kind, [VLeaf(TreatLeaf(fs, v.kids[0].leaf, u))])
  {
    if fs != [] {
      OnceEachLeaf(fs[..|fs| - 1], v, u);
      LeafAgain(fs, if v.VLeaf? then v.leaf else v.kids[0].leaf, u);
    } else if v.VBranch? {
      assert v.kids == [v.kids[0]];
    }
  }

  lemma {:induction false} InnerIsApply(fs: seq<Fn>, v: Value, op: Op, metas: Metas, u: TextLib)
    requires v.VBranch? ==> !v.kind.Pointer?
    ensures Treat(Apply(fs), v, op, metas, u) == Treat(Inner(fs), v, op, metas, u)
    ensures Clean(Apply(fs), v, op, metas) == Clean(Inner(fs), v, op, metas)
  {
    if v.VBranch? {
      assert forall i | 0 <= i < |v.kids| ::
          Child(Apply(fs), v.kind, i, op, metas) == Child(Inner(fs), v.kind, i, op, metas);
      assert Treat(Apply(fs), v, op, metas, u).kids == Treat(Inner(fs), v, op, metas, u).kids;
    }
  }

  /** For a struct all modes that enter it are the same. */
  lemma {:induction false} EnteringIsOne(one: Mode, other: Mode, v: Value, op: Op, metas: Metas, u: TextLib)
    requires v.VBranch? && v.kind.Struct? && !one.Off? && !one.Text? && !other.Off? && !other.Text?
    ensures Treat(one, v, op, metas, u) == Treat(other, v, op, metas, u)
    ensures Clean(one, v, op, metas) == Clean(other, v, op, metas)
  {
    assert forall i | 0 <= i < |v.kids| :: Child(one, v.kind, i, op, metas) == Child(other, v.kind, i, op, metas);
    assert Treat(one, v, op, metas, u).kids == Treat(other, v, op, metas, u).kids;
  }

  lemma {:induction false} DiveIsApply(fs: seq<Fn>, v: Value, op: Op, metas: Metas, u: TextLib)
    requires v.VBranch? && (v.kind.Struct? || v.kind.Pointer?)
    ensures Treat(Dive(fs), v, op, metas, u) == Treat(Apply([]), v, op, metas, u)
    ensures Clean(Dive(fs), v, op, metas) == Clean(Apply([]), v, op, metas)
  {
    assert forall i | 0 <= i < |v.kids| ::
        Child(Dive(fs), v.kind, i, op, metas) == Child(Apply([]), v.kind, i, op, metas);
    assert Treat(Dive(fs), v, op, metas, u).kids == Treat(Apply([]), v, op, metas, u).kids;
  }

  lemma {:induction false} NoFunctionsNoChange(v: Value, op: Op, metas: Metas, u: TextLib)
    requires v.VBranch? ==> !v.kind.Struct? && !v.kind.Pointer?
    ensures Treat(Apply([]), v, op, metas, u) == v && Clean(Apply([]), v, op, metas)
  {
    InnerIsApply([], v, op, metas, u);
    OnceEachIsTreat([], v, op, metas, u);
  }

  /** What a processing method leaves: the same place holds the treated value. */
  ghost predicate Processed(before: Store, after: Store, t: Tree, t': Tree, mode: Mode, op: Op, metas: Metas,
          u: TextLib) {
    && Holds(after, t') && t'.loc == t.loc && Within(t', before, Foot(t))
    && ValueOf(t') == Treat(mode, ValueOf(t), op, metas, u)
  }

  lemma {:induction false} Element(store: Store, t: Tree, i: nat, types: Types)
    requires Holds(store, t) && Typed(t, types) && t.TBranch? && i < |t.kids|
    ensures Holds(store, t.kids[i]) && Typed(t.kids[i], types)
    ensures store[t.loc].kids[i] == t.kids[i].loc
    ensures ValueOf(t).kids[i] == ValueOf(t.kids[i]) && ValueOf(t.kids[i]) < ValueOf(t)
  {
    assert AllApart(t.kids);
    assert ValueOf(t).kids[i] == ValueOf(t.kids[i]);
  }

  /** One element has been processed in place. */
  lemma {:induction false} StepDone(before: Store, here: Store, after: Store, t: Tree, now: seq<Tree>, k: nat,
          done: Tree, mode: Mode, op: Op, metas: Metas, u: TextLib)
    requires Holds(before, t) && t.TBranch? && Underway(before, here, t, now)
    requires TreatedUpTo(mode, t, now, k, op, metas, u) && k < |now|
    requires Untouched(here, after, Foot(t.kids[k]))
    requires Processed(here, after, t.kids[k], done, Child(mode, t.kind, k, op, metas), op, metas, u)
    requires Clean(Child(mode, t.kind, k, op, metas), ValueOf(t.kids[k]), op, metas)
    ensures Underway(before, after, t, now[k := done]) && TreatedUpTo(mode, t, now[k := done], k + 1, op, metas, u)
  {
    ElementDone(before, here, after, t, now, k, done);
    OneMore(mode, t, now, k, done, op, metas, u);
  }

  /** One element has been processed, and what it is now, here or elsewhere, is stored under the branch. */
  lemma {:induction false} EntryDone(before: Store, here: Store, after: Store, t: Tree, now: seq<Tree>, k: nat,
          done: Tree, mode: Mode, op: Op, metas: Metas, u: TextLib)
    requires Holds(before, t) && t.TBranch? && Underway(before, here, t, now)
    requires TreatedUpTo(mode, t, now, k, op, metas, u) && k < |now|
    requires Untouched(here, after, Foot(t.kids[k])) && Holds(after, done) && Within(done, here, Foot(t.kids[k]))
    requires ValueOf(done) == Treat(Child(mode, t.kind, k, op, metas), ValueOf(t.kids[k]), op, metas, u)
    requires Clean(Child(mode, t.kind, k, op, metas), ValueOf(t.kids[k]), op, metas)
    ensures t.loc in after && after[t.loc] == CBranch(t.kind, Locs(now))
    ensures Underway(before, after[t.loc := CBranch(t.kind, Locs(now)[k := done.loc])], t, now[k := done])
    ensures TreatedUpTo(mode, t, now[k := done], k + 1, op, metas, u)
  {
    RootIsApart(before, here, t, now, k);
    ElementReplaced(before, here, after, t, now, k, done);
    OneMore(mode, t, now, k, done, op, metas, u);
    assert Locs(now[k := done]) == Locs(now)[k := done.loc];
  }

  /** An element could not be processed. */
  lemma {:induction false} StepFailed(before: Store, here: Store, after: Store, t: Tree, now: seq<Tree>, k: nat,
          mode: Mode, op: Op, metas: Metas)
    requires Holds(before, t) && t.TBranch? && Underway(before, here, t, now) && k < |now| && now[k] == t.kids[k]
    requires Untouched(here, after, Foot(t.kids[k]))
    requires !Clean(Child(mode, t.kind, k, op, metas), ValueOf(t.kids[k]), op, metas)
    ensures Untouched(before, after, Foot(t)) && !Clean(mode, ValueOf(t), op, metas)
  {
    ElementFailed(before, here, after, t, now, k);
    OneUnclean(mode, t, k, op, metas);
  }

  /** All elements have been processed. */
  lemma {:induction false} Finished(before: Store, store: Store, t: Tree, now: seq<Tree>, mode: Mode, op: Op,
          metas: Metas, u: TextLib)
    requires Holds(before, t) && t.TBranch? && Underway(before, store, t, now)
    requires TreatedUpTo(mode, t, now, |t.kids|, op, metas, u) && Enterable(mode, t, op, metas)
    ensures Processed(before, store, t, TBranch(t.loc, t.kind, now), mode, op, metas, u)
    ensures Clean(mode, ValueOf(t), op, metas)
  {
    AllTreated(mode, t, now, op, metas, u);
    BranchDone(before, store, t, now);
  }

  /** Element `i` of a struct is looked at exactly when it carries a tag. */
  lemma {:induction false} FieldChild(t: Tree, fields: seq<CachedField>, j: nat, op: Op, metas: Metas,
          hasValidate: bool)
    requires t.TBranch? && t.kind.Struct? && t.kind.ty in metas
    requires metas[t.kind.ty] == Some(Meta(fields, hasValidate))
    requires Fits(fields, |t.kids|) && j < |fields|
    ensures Child(Inner([]), t.kind, fields[j].index, op, metas) == ModeOf(fields[j], op)
  {
    FieldMetaAt(fields, |t.kids|, j);
  }

  /** Between two tagged fields, and before the first and after the last, nothing is looked at. */
  lemma {:induction false} SkipGap(t: Tree, now: seq<Tree>, upto: nat, fields: seq<CachedField>, j: nat, op: Op,
          metas: Metas, hasValidate: bool, u: TextLib)
    requires t.TBranch? && t.kind.Struct? && t.kind.ty in metas
    requires metas[t.kind.ty] == Some(Meta(fields, hasValidate))
    requires Fits(fields, |t.kids|) && j <= |fields| && upto == (if j == 0 then 0 else fields[j - 1].index + 1)
    requires TreatedUpTo(Inner([]), t, now, upto, op, metas, u)
    ensures TreatedUpTo(Inner([]), t, now, if j < |fields| then fields[j].index else |now|, op, metas, u)
  {
    var n := if j < |fields| then fields[j].index else |now|;
    forall i: nat | upto <= i < n ensures Child(Inner([]), t.kind, i, op, metas).Off? {
      FieldMetaNone(fields, i);
    }
    SkipElements(Inner([]), t, now, upto, n, op, metas, u);
  }

  /** The next element of a container is still as it was. */
  lemma {:induction false} NextElement(before: Store, here: Store, t: Tree, now: seq<Tree>, i: nat, mode: Mode,
          op: Op, metas: Metas, types: Types, u: TextLib)
    requires Holds(before, t) && Typed(t, types) && t.TBranch? && Underway(before, here, t, now) && i < |now|
    requires TreatedUpTo(mode, t, now, i, op, metas, u)
    ensures now[i] == t.kids[i] && |here[t.loc].kids| == |t.kids| && here[t.loc].kids[i] == t.kids[i].loc
    ensures Holds(here, t.kids[i]) && Typed(t.kids[i], types) && ValueOf(t.kids[i]) < ValueOf(t)
  {
    Element(before, t, i, types);
  }

  /** Up to the next tagged field there is nothing to do, and that field is looked at as its tags say. */
  lemma {:induction false} NextField(t: Tree, now: seq<Tree>, upto: nat, fields: seq<CachedField>, j: nat, op: Op,
          metas: Metas, hasValidate: bool, u: TextLib)
    requires t.TBranch? && t.kind.Struct? && t.kind.ty in metas && metas[t.kind.ty] == Some(Meta(fields, hasValidate))
    requires Fits(fields, |t.kids|) && j < |fields| && upto == (if j == 0 then 0 else fields[j - 1].index + 1)
    requires TreatedUpTo(Inner([]), t, now, upto, op, metas, u)
    ensures Child(Inner([]), t.kind, fields[j].index, op, metas) == ModeOf(fields[j], op)
    ensures TreatedUpTo(Inner([]), t, now, fields[j].index, op, metas, u)
  {
    SkipGap(t, now, upto, fields, j, op, metas, hasValidate, u);
    FieldChild(t, fields, j, op, metas, hasValidate);
  }

  /** After the last tagged field the whole struct has been processed. */
  lemma {:induction false} FieldsFinished(before: Store, store: Store, t: Tree, now: seq<Tree>, upto: nat,
          fields: seq<CachedField>, op: Op, metas: Metas, hasValidate: bool, u: TextLib)
    requires Holds(before, t) && t.TBranch? && t.kind.Struct? && Underway(before, store, t, now) && !op.Unknown?
    requires t.kind.ty in metas && metas[t.kind.ty] == Some(Meta(fields, hasValidate)) && Fits(fields, |t.kids|)
    requires upto == (if fields == [] then 0 else fields[|fields| - 1].index + 1)
    requires TreatedUpTo(Inner([]), t, now, upto, op, metas, u)
    ensures Processed(before, store, t, TBranch(t.loc, t.kind, now), Inner([]), op, metas, u)
    ensures Clean(Inner([]), ValueOf(t), op, metas)
  {
    SkipGap(t, now, upto, fields, |fields|, op, metas, hasValidate, u);
    Finished(before, store, t, now, Inner([]), op, metas, u);
  }

  // Copies

  predicate Inline(kind: Kind) { kind.Struct? || kind.Array? }

  /** The parts of a copy that assignment copies are new; the others are shared with the original. */
  ghost predicate Copy(before: Store, t: Tree, t': Tree)
    decreases t
  {
    && t'.loc !in before
    && match (t, t')
       case (TLeaf(_, x), TLeaf(_, y)) => x == y
       case (TBranch(_, k, xs), TBranch(_, l, ys)) =>
         && k == l
         && (if Inline(k) then |xs| == |ys| && forall i | 0 <= i < |xs| :: Copy(before, xs[i], ys[i]) else xs == ys)
       case _ => false
  }

  ghost predicate Copied(before: Store, store: Store, t: Tree, t': Tree, types: Types) {
    && Holds(store, t') && Within(t', before, Foot(t)) && Copy(before, t, t')
    && ValueOf(t') == ValueOf(t) && Typed(t', types)
  }

  /** The first elements of `t` have been copied. */
  ghost predicate Copies(before: Store, store: Store, t: Tree, copies: seq<Tree>, types: Types)
    requires t.TBranch?
  {
    && |copies| <= |t.kids| && Disjoint(copies)
    && forall i | 0 <= i < |copies| :: Copied(before, store, t.kids[i], copies[i], types)
  }

  lemma {:induction false} CopyWeakens(before: Store, here: Store, t: Tree, t': Tree)
    requires Copy(here, t, t') && before.Keys <= here.Keys
    ensures Copy(before, t, t')
    decreases t
  {
    if t.TBranch? && Inline(t.kind) {
      forall i | 0 <= i < |t.kids| ensures Copy(before, t.kids[i], t'.kids[i]) {
        CopyWeakens(before, here, t.kids[i], t'.kids[i]);
      }
    }
  }

  lemma {:induction false} NextPart(before: Store, here: Store, t: Tree, i: nat, types: Types)
    requires Holds(before, t) && Typed(t, types) && t.TBranch? && i < |t.kids| && Untouched(before, here, {})
    ensures Holds(here, t.kids[i]) && Typed(t.kids[i], types) && t.kids[i].loc == before[t.loc].kids[i]
    ensures ValueOf(t.kids[i]) < ValueOf(t)
  {
    Element(before, t, i, types);
    StaysStored(before, here, {}, t.kids[i]);
  }

  lemma {:induction false} CopiesStep(before: Store, here: Store, after: Store, t: Tree, copies: seq<Tree>, c: Tree,
          types: Types)
    requires Holds(before, t) && t.TBranch? && Copies(before, here, t, copies, types) && |copies| < |t.kids|
    requires Untouched(before, here, {}) && Untouched(here, after, {})
    requires Copied(here, after, t.kids[|copies|], c, types)
    ensures Copies(before, after, t, copies + [c], types)
    ensures Untouched(before, after, {}) && Locs(copies + [c]) == Locs(copies) + [c.loc]
  {
    var k := |copies|;
    CopyWeakens(before, here, t.kids[k], c);
    StoredIsThere(before, t.kids[k]);
    forall i | 0 <= i < k ensures Copied(before, after, t.kids[i], copies[i], types) && Foot(copies[i]) !! Foot(c) {
      assert Copied(before, here, t.kids[i], copies[i], types);
      StaysStored(here, after, {}, copies[i]);
      StoredIsThere(here, copies[i]);
      assert AllApart(t.kids);
      assert Foot(t.kids[i]) !! Foot(t.kids[k]);
    }
  }

  lemma {:induction false} CopiedElement(before: Store, store: Store, t: Tree, t': Tree, cell: Cell, types: Types,
          i: nat)
    requires Holds(before, t) && Typed(t, types) && Untouched(before, store, {}) && t'.loc !in store
    requires t.TBranch? && t'.TBranch? && |t'.kids| == |t.kids| && i < |t.kids|
    requires Copied(before, store, t.kids[i], t'.kids[i], types) || t'.kids[i] == t.kids[i]
    ensures Holds(store[t'.loc := cell], t'.kids[i]) && t'.loc !in Foot(t'.kids[i])
            && Within(t'.kids[i], before, Foot(t))
    ensures ValueOf(t'.kids[i]) == ValueOf(t.kids[i]) && Typed(t'.kids[i], types)
  {
    Element(before, t, i, types);
    assert Foot(t.kids[i]) <= FootAll(t.kids);
    if t'.kids[i] == t.kids[i] {
      StaysStored(before, store, {}, t.kids[i]);
    }
    StoredIsThere(store, t'.kids[i]);
    StaysStored(store, store[t'.loc := cell], {t'.loc}, t'.kids[i]);
  }

  /** The copy as a whole, once its top is put at a new place. */
  lemma {:induction false} CopyPlaced(before: Store, store: Store, t: Tree, t': Tree, types: Types)
    requires Holds(before, t) && Typed(t, types) && Untouched(before, store, {}) && t'.loc !in store
    requires if t.TBranch? && Inline(t.kind)
             then t'.TBranch? && t'.kind == t.kind && |t'.kids| == |t.kids| && Copies(before, store, t, t'.kids, types)
             else t' == t.(loc := t'.loc)
    ensures var cell := if t'.TLeaf? then CLeaf(t'.leaf) else CBranch(t'.kind, Locs(t'.kids));
            Copied(before, store[t'.loc := cell], t, t', types)
  {
    var cell := if t'.TLeaf? then CLeaf(t'.leaf) else CBranch(t'.kind, Locs(t'.kids));
    var final := store[t'.loc := cell];
    if t'.TBranch? {
      forall i | 0 <= i < |t'.kids|
        ensures Holds(final, t'.kids[i]) && t'.loc !in Foot(t'.kids[i]) && Within(t'.kids[i], before, Foot(t))
        ensures ValueOf(t'.kids[i]) == ValueOf(t.kids[i]) && Typed(t'.kids[i], types)
      {
        CopiedElement(before, store, t, t', cell, types, i);
      }
      assert ValuesOf(t'.kids) == ValuesOf(t.kids);
      assert AllApart(t.kids);
      assert Holds(final, t');
      assert Within(t', before, Foot(t));
    }
  }

  // A string behind a pointer

  lemma {:induction false} PointerTarget(store: Store, t: Tree)
    requires Holds(store, t) && t.TBranch? && |t.kids| == 1
    ensures Holds(store, t.kids[0]) && store[t.loc].kids == [t.kids[0].loc]
    ensures ValueOf(t) == VBranch(t.kind, [ValueOf(t.kids[0])])
  {
    assert AllApart(t.kids);
    assert ValueOf(t).kids == [ValueOf(t.kids[0])];
  }

  ghost predicate StringProcessed(before: Store, after: Store, fn: Fn, t: Tree, t': Tree, u: TextLib) {
    && Untouched(before, after, Foot(t)) && after.Keys == before.Keys
    && Holds(after, t') && t'.loc == t.loc && Within(t', before, Foot(t))
    && ValueOf(t') == Once(fn, ValueOf(t), u)
  }

  lemma {:induction false} FootOfOne(t: Tree)
    ensures FootAll([t]) == Foot(t)
  {
    assert [t][0] == t;
    forall x | x in Foot(t) ensures x in FootAll([t]) {
      assert 0 <= 0 < |[t]| && x in Foot([t][0]);
    }
  }

  lemma {:induction false} StringHere(store: Store, t: Tree, fn: Fn, u: TextLib)
    requires Holds(store, t) && t.TLeaf?
    ensures t.leaf.Str? ==> var s := Run(fn, t.leaf.s, u);
              StringProcessed(store, store[t.loc := CLeaf(Str(s))], fn, t, TLeaf(t.loc, Str(s)), u)
    ensures !t.leaf.Str? ==> StringProcessed(store, store, fn, t, t, u)
  {
    if t.leaf.Str? {
      RunOne(fn, t.leaf.s, u);
    }
  }

  lemma {:induction false} NothingToProcess(store: Store, t: Tree, fn: Fn, u: TextLib)
    requires Holds(store, t) && t.TBranch? && (t.kind.Pointer? ==> |t.kids| == 1)
    ensures !(t.kind.Pointer? && t.kids[0].TLeaf? && t.kids[0].leaf.Str?) ==> StringProcessed(store, store, fn, t, t, u)
  {
    if t.kind.Pointer? {
      PointerTarget(store, t);
    }
  }

  lemma {:induction false} StringBehindPointer(store: Store, t: Tree, fn: Fn, u: TextLib)
    requires Holds(store, t) && t.TBranch? && t.kind.Pointer? && |t.kids| == 1
    requires t.kids[0].TLeaf? && t.kids[0].leaf.Str?
    ensures var s := Run(fn, t.kids[0].leaf.s, u);
            var done := TLeaf(t.kids[0].loc, Str(s));
            var t' := TBranch(t.loc, t.kind, [done]);
            done.loc in store && StringProcessed(store, store[done.loc := CLeaf(Str(s))], fn, t, t', u)
  {
    PointerTarget(store, t);
    var s := Run(fn, t.kids[0].leaf.s, u);
    var done := TLeaf(t.kids[0].loc, Str(s));
    var t' := TBranch(t.loc, t.kind, [done]);
    RunOne(fn, t.kids[0].leaf.s, u);
    FootOfOne(t.kids[0]);
    FootOfOne(done);
    assert t.kids == [t.kids[0]] && Locs([done]) == [done.loc];
    assert Stored(store[done.loc := CLeaf(Str(s))], t');
    assert ValueOf(t').kids == [ValueOf(done)];
  }

  class Processor {
    const operators: Operators
    const u: TextLib
    var store: Store
    var next: Loc

    ghost predicate Valid()
      reads this, operators
    {
      (forall x | x in store :: x < next) && CacheFits(operators.types, operators.cache)
    }

    ghost function Metadata(): Metas
      reads operators
    {
      MetasOf(operators.types, operators.Now())
    }

    constructor (operators: Operators, u: TextLib, store: Store, next: Loc)
      requires forall x | x in store :: x < next
      requires CacheFits(operators.types, operators.cache)
      ensures Valid() && this.operators == operators && this.u == u && this.store == store
    {
      this.operators, this.u, this.store, this.next := operators, u, store, next;
    }

    /** One processor on one value. */
    method ProcessStringValue(l: Loc, fn: Fn, ghost t: Tree) returns (ghost t': Tree)
      requires Valid() && Holds(store, t) && t.loc == l
      requires t.TBranch? && t.kind.Pointer? ==> |t.kids| == 1
      modifies this`store
      ensures Valid() && StringProcessed(old(store), store, fn, t, t', u)
    {
      t' := t;
      match store[l]
      case CLeaf(leaf) =>
        StringHere(store, t, fn, u);
        if leaf.Str? {
          var s := Run(fn, leaf.s, u);
          store := store[l := CLeaf(Str(s))];
          t' := TLeaf(l, Str(s));
        }
      case CBranch(kind, kids) =>
        NothingToProcess(store, t, fn, u);
        if kind.Pointer? {
          PointerTarget(store, t);
          var target := store[kids[0]];
          if target.CLeaf? && target.leaf.Str? {
            var s := Run(fn, target.leaf.s, u);
            StringBehindPointer(store, t, fn, u);
            store := store[kids[0] := CLeaf(Str(s))];
            t' := TBranch(l, t.kind, [TLeaf(kids[0], Str(s))]);
          }
        }
    }

    /** The functions, one after the other, on a value that is not a struct. */
    method ApplyFuncs(l: Loc, funcs: seq<Fn>, op: Op, ghost t: Tree, ghost metas: Metas) returns (ghost t': Tree)
      requires Valid() && Metadata() == metas && Holds(store, t) && t.loc == l
      requires t.TBranch? ==> !t.kind.Struct? && (t.kind.Pointer? ==> |t.kids| == 1)
      modifies this`store
      ensures Valid() && Untouched(old(store), store, Foot(t))
      ensures Processed(old(store), store, t, t', Inner(funcs), op, metas, u)
      ensures Clean(Inner(funcs), ValueOf(t), op, metas)
    {
      ghost var before := store;
      t' := t;
      for i := 0 to |funcs|
        invariant Valid() && Untouched(before, store, Foot(t))
        invariant Holds(store, t') && t'.loc == l && Within(t', before, Foot(t))
        invariant ValueOf(t') == OnceEach(funcs[..i], ValueOf(t), u)
        invariant t'.TBranch? && t'.kind.Pointer? ==> |t'.kids| == 1
      {
        ghost var here, was := store, t';
        t' := ProcessStringValue(l, funcs[i], was);
        assert funcs[..i + 1][..i] == funcs[..i];
        UntouchedChains(before, here, store, was, Foot(t));
        WithinChains(before, here, was, t', Foot(t));
        assert t'.TBranch? ==> |t'.kids| == |ValueOf(t').kids|;
      }
      assert funcs[..|funcs|] == funcs;
      OnceEachIsTreat(funcs, ValueOf(t), op, metas, u);
    }

    /** A value once pointers are behind it: a struct is processed by its own tags, anything else gets the functions. */
    method ApplyHere(l: Loc, funcs: seq<Fn>, op: Op, ghost t: Tree, ghost metas: Metas)
      returns (ok: bool, ghost t': Tree)
      requires Valid() && Metadata() == metas && Holds(store, t) && t.loc == l && Typed(t, operators.types)
      modifies this, operators`cache
      ensures Valid() && Metadata() == metas && Untouched(old(store), store, Foot(t))
      ensures ok <==> Clean(Inner(funcs), ValueOf(t), op, metas)
      ensures ok ==> Processed(old(store), store, t, t', Inner(funcs), op, metas, u)
      decreases ValueOf(t), 3
    {
      if store[l].CBranch? && store[l].kind.Struct? {
        ok, t' := ProcessStruct(l, op, t, metas);
        EnteringIsOne(Inner([]), Inner(funcs), ValueOf(t), op, metas, u);
      } else {
        t' := ApplyFuncs(l, funcs, op, t, metas);
        ok := true;
      }
    }

    /** Follows one pointer, if there is one. */
    method ApplyProcessors(l: Loc, funcs: seq<Fn>, op: Op, ghost t: Tree, ghost metas: Metas)
      returns (ok: bool, ghost t': Tree)
      requires Valid() && Metadata() == metas && Holds(store, t) && t.loc == l && Typed(t, operators.types)
      modifies this, operators`cache
      ensures Valid() && Metadata() == metas && Untouched(old(store), store, Foot(t))
      ensures ok <==> Clean(Apply(funcs), ValueOf(t), op, metas)
      ensures ok ==> Processed(old(store), store, t, t', Apply(funcs), op, metas, u)
      decreases ValueOf(t), 4
    {
      if store[l].CBranch? && store[l].kind.Pointer? {
        ghost var before := store;
        BranchStarts(before, t);
        ghost var inner, done := t.kids[0], t;
        Element(before, t, 0, operators.types);
        assert Child(Apply(funcs), t.kind, 0, op, metas) == Inner(funcs);
        ok, done := ApplyHere(store[l].kids[0], funcs, op, inner, metas);
        if ok {
          StepDone(before, before, store, t, t.kids, 0, done, Apply(funcs), op, metas, u);
          t' := TBranch(l, t.kind, t.kids[0 := done]);
          Finished(before, store, t, t'.kids, Apply(funcs), op, metas, u);
        } else {
          StepFailed(before, before, store, t, t.kids, 0, Apply(funcs), op, metas);
          t' := t;
        }
      } else {
        ok, t' := ApplyHere(l, funcs, op, t, metas);
        InnerIsApply(funcs, ValueOf(t), op, metas, u);
      }
    }

    /** The elements of a slice or an array, in place. */
    method DiveList(l: Loc, funcs: seq<Fn>, op: Op, ghost t: Tree, ghost metas: Metas)
      returns (ok: bool, ghost t': Tree)
      requires Valid() && Metadata() == metas && Holds(store, t) && t.loc == l && Typed(t, operators.types)
      requires t.TBranch? && (t.kind.Slice? || t.kind.Array?)
      modifies this, operators`cache
      ensures Valid() && Metadata() == metas && Untouched(old(store), store, Foot(t))
      ensures ok <==> Clean(Dive(funcs), ValueOf(t), op, metas)
      ensures ok ==> Processed(old(store), store, t, t', Dive(funcs), op, metas, u)
      decreases ValueOf(t), 5
    {
      ghost var before, now, mode := store, t.kids, Dive(funcs);
      BranchStarts(before, t);
      t' := t;
      var i, n := 0, |store[l].kids|;
      while i < n
        invariant n == |t.kids| && Valid() && Metadata() == metas && Underway(before, store, t, now)
        invariant i <= |now| && TreatedUpTo(mode, t, now, i, op, metas, u)
      {
        NextElement(before, store, t, now, i, mode, op, metas, operators.types, u);
        ghost var here, done := store, t;
        ok, done := ApplyProcessors(store[l].kids[i], funcs, op, t.kids[i], metas);
        if !ok {
          StepFailed(before, here, store, t, now, i, mode, op, metas);
          return;
        }
        StepDone(before, here, store, t, now, i, done, mode, op, metas, u);
        now := now[i := done];
        i := i + 1;
      }
      ok, t' := true, TBranch(l, t.kind, now);
      Finished(before, store, t, now, mode, op, metas, u);
    }

    /** A field marked "dive": the elements of a container, or what a struct or a pointer holds. */
    method DiveField(l: Loc, funcs: seq<Fn>, op: Op, ghost t: Tree, ghost metas: Metas)
      returns (ok: bool, ghost t': Tree)
      requires Valid() && Metadata() == metas && Holds(store, t) && t.loc == l && Typed(t, operators.types)
      modifies this, operators`cache
      ensures Valid() && Metadata() == metas && Untouched(old(store), store, Foot(t))
      ensures ok <==> Clean(Dive(funcs), ValueOf(t), op, metas)
      ensures ok ==> Processed(old(store), store, t, t', Dive(funcs), op, metas, u)
      decreases ValueOf(t), 7
    {
      match store[l]
      case CLeaf(_) =>
        ok, t' := true, t;
        OffIsIdentity(Dive(funcs), ValueOf(t), op, metas, u);
      case CBranch(kind, _) =>
        match kind
        case Slice => ok, t' := DiveList(l, funcs, op, t, metas);
        case Array => ok, t' := DiveList(l, funcs, op, t, metas);
        case Map(_) => ok, t' := DiveMap(l, funcs, op, t, metas);
        case _ =>
          ok, t' := ApplyProcessors(l, [], op, t, metas);
          DiveIsApply(funcs, ValueOf(t), op, metas, u);
    }

    /** The values of a map: pointers in place, anything else through a copy that is stored back. */
    method DiveMap(l: Loc, funcs: seq<Fn>, op: Op, ghost t: Tree, ghost metas: Metas) returns (ok: bool, ghost t': Tree)
      requires Valid() && Metadata() == metas && Holds(store, t) && t.loc == l && Typed(t, operators.types)
      requires t.TBranch? && t.kind.Map?
      modifies this, operators`cache
      ensures Valid() && Metadata() == metas && Untouched(old(store), store, Foot(t))
      ensures ok <==> Clean(Dive(funcs), ValueOf(t), op, metas)
      ensures ok ==> Processed(old(store), store, t, t', Dive(funcs), op, metas, u)
      decreases ValueOf(t), 6
    {
      ghost var before, now, mode := store, t.kids, Dive(funcs);
      BranchStarts(before, t);
      t' := t;
      var i, n := 0, |store[l].kids|;
      while i < n
        invariant n == |t.kids| && Valid() && Metadata() == metas && Underway(before, store, t, now)
        invariant i <= |now| && TreatedUpTo(mode, t, now, i, op, metas, u)
      {
        ok, now := DiveNextEntry(l, i, funcs, op, before, t, now, metas);
        if !ok {
          return;
        }
        i := i + 1;
      }
      ok, t' := true, TBranch(l, t.kind, now);
      Finished(before, store, t, now, mode, op, metas, u);
    }

    /** Processes one value of a map of which all earlier ones are done, and stores the result under its key. */
    method DiveNextEntry(l: Loc, i: nat, funcs: seq<Fn>, op: Op, ghost before: Store, ghost t: Tree,
            ghost now: seq<Tree>, ghost metas: Metas)
      returns (ok: bool, ghost next: seq<Tree>)
      requires Valid() && Metadata() == metas && Holds(before, t) && t.loc == l && Typed(t, operators.types)
      requires t.TBranch? && t.kind.Map? && Underway(before, store, t, now) && i < |t.kids|
      requires TreatedUpTo(Dive(funcs), t, now, i, op, metas, u)
      modifies this, operators`cache
      ensures Valid() && Metadata() == metas
      ensures ok ==> Underway(before, store, t, next) && TreatedUpTo(Dive(funcs), t, next, i + 1, op, metas, u)
      ensures !ok ==> Untouched(before, store, Foot(t)) && !Clean(Dive(funcs), ValueOf(t), op, metas)
      decreases ValueOf(t), 5
    {
      NextElement(before, store, t, now, i, Dive(funcs), op, metas, operators.types, u);
      ghost var here, done := store, t;
      var place;
      ok, place, done := DiveEntry(store[l].kids[i], funcs, op, t.kids[i], metas);
      next := now[i := done];
      if ok {
        EntryDone(before, here, store, t, now, i, done, Dive(funcs), op, metas, u);
        Put(l, i, place);
      } else {
        StepFailed(before, here, store, t, now, i, Dive(funcs), op, metas);
      }
    }

    /** Stores a value of a map under its key. */
    method Put(l: Loc, i: nat, place: Loc)
      requires Valid() && l in store && store[l].CBranch? && i < |store[l].kids|
      modifies this`store
      ensures Valid() && store == old(store)[l := CBranch(old(store)[l].kind, old(store)[l].kids[i := place])]
    {
      store := store[l := CBranch(store[l].kind, store[l].kids[i := place])];
    }

    /** One value of a map; `place` is where the result is. */
    method DiveEntry(value: Loc, funcs: seq<Fn>, op: Op, ghost t: Tree, ghost metas: Metas)
      returns (ok: bool, place: Loc, ghost t': Tree)
      requires Valid() && Metadata() == metas && Holds(store, t) && t.loc == value && Typed(t, operators.types)
      modifies this, operators`cache
      ensures Valid() && Metadata() == metas && Untouched(old(store), store, Foot(t))
      ensures ok <==> Clean(Apply(funcs), ValueOf(t), op, metas)
      ensures ok ==> Holds(store, t') && t'.loc == place && Within(t', old(store), Foot(t))
      ensures ok ==> ValueOf(t') == Treat(Apply(funcs), ValueOf(t), op, metas, u)
      decreases ValueOf(t), 5
    {
      var cell := store[value];
      if cell.CBranch? && cell.kind.Pointer? {
        place := value;
        ok, t' := ApplyProcessors(value, funcs, op, t, metas);
      } else if (cell.CBranch? && cell.kind.Struct?) || |funcs| > 0 {
        ok, place, t' := ProcessCopy(value, funcs, op, t, metas);
      } else {
        NoFunctionsNoChange(ValueOf(t), op, metas, u);
        ok, place, t' := true, value, t;
      }
    }

    /** Processes a copy of a value that cannot be changed where it is. */
    method ProcessCopy(value: Loc, funcs: seq<Fn>, op: Op, ghost t: Tree, ghost metas: Metas)
      returns (ok: bool, place: Loc, ghost t': Tree)
      requires Valid() && Metadata() == metas && Holds(store, t) && t.loc == value && Typed(t, operators.types)
      requires t.TBranch? ==> !t.kind.Pointer?
      modifies this, operators`cache
      ensures Valid() && Metadata() == metas && Untouched(old(store), store, Foot(t))
      ensures ok <==> Clean(Apply(funcs), ValueOf(t), op, metas)
      ensures ok ==> Holds(store, t') && t'.loc == place && Within(t', old(store), Foot(t))
      ensures ok ==> ValueOf(t') == Treat(Apply(funcs), ValueOf(t), op, metas, u)
      decreases ValueOf(t), 4
    {
      ghost var before := store;
      ghost var copy;
      place, copy := CloneInline(value, t);
      ghost var here := store;
      ok, t' := ApplyHere(place, funcs, op, copy, metas);
      InnerIsApply(funcs, ValueOf(t), op, metas, u);
      UntouchedChains(before, here, store, copy, Foot(t));
      if ok {
        WithinChains(before, here, copy, t', Foot(t));
      }
    }

    /** Copies a value the way assignment does: structs and arrays with all their parts, anything else by reference. */
    method CloneInline(l: Loc, ghost t: Tree) returns (place: Loc, ghost t': Tree)
      requires Valid() && Holds(store, t) && t.loc == l && Typed(t, operators.types)
      modifies this
      ensures Valid() && Untouched(old(store), store, {})
      ensures Copied(old(store), store, t, t', operators.types) && t'.loc == place
      decreases ValueOf(t), 1
    {
      ghost var before := store;
      var cell := store[l];
      if cell.CBranch? && Inline(cell.kind) {
        var places;
        ghost var copies;
        places, copies := CloneParts(cell.kids, t);
        cell := CBranch(cell.kind, places);
        t' := TBranch(next, t.kind, copies);
      } else {
        t' := t.(loc := next);
      }
      place := next;
      CopyPlaced(before, store, t, t', operators.types);
      store, next := store[place := cell], next + 1;
    }

    /** Copies the parts of a struct or an array. */
    method CloneParts(kids: seq<Loc>, ghost t: Tree) returns (places: seq<Loc>, ghost copies: seq<Tree>)
      requires Valid() && Holds(store, t) && Typed(t, operators.types)
      requires t.TBranch? && kids == Locs(t.kids)
      modifies this
      ensures Valid() && Untouched(old(store), store, {})
      ensures Copies(old(store), store, t, copies, operators.types) && |copies| == |t.kids| && Locs(copies) == places
      decreases ValueOf(t), 0
    {
      ghost var before := store;
      places, copies := [], [];
      for i := 0 to |kids|
        invariant Valid() && Untouched(before, store, {})
        invariant Copies(before, store, t, copies, operators.types) && |copies| == i && Locs(copies) == places
      {
        ghost var here := store;
        NextPart(before, here, t, i, operators.types);
        var p;
        ghost var c;
        p, c := CloneInline(kids[i], t.kids[i]);
        CopiesStep(before, here, store, t, copies, c, operators.types);
        places, copies := places + [p], copies + [c];
      }
    }

    method ProcessField(l: Loc, f: CachedField, op: Op, ghost t: Tree, ghost metas: Metas)
      returns (ok: bool, ghost t': Tree)
      requires Valid() && Metadata() == metas && Holds(store, t) && t.loc == l && Typed(t, operators.types)
      modifies this, operators`cache
      ensures Valid() && Metadata() == metas && Untouched(old(store), store, Foot(t))
      ensures ok <==> Clean(ModeOf(f, op), ValueOf(t), op, metas)
      ensures ok ==> Processed(old(store), store, t, t', ModeOf(f, op), op, metas, u)
      decreases ValueOf(t), 8
    {
      if AnyDive(f) {
        ok, t' := DiveField(l, FuncsOf(f, op), op, t, metas);
      } else {
        ok, t' := ApplyProcessors(l, FuncsOf(f, op), op, t, metas);
      }
    }

    /** Processes one field of a struct of which all earlier fields are done. */
    method ProcessNext(l: Loc, f: CachedField, op: Op, ghost before: Store, ghost t: Tree, ghost now: seq<Tree>,
            ghost metas: Metas)
      returns (ok: bool, ghost next: seq<Tree>)
      requires Valid() && Metadata() == metas && Holds(before, t) && t.loc == l && Typed(t, operators.types)
      requires t.TBranch? && Underway(before, store, t, now) && f.index < |t.kids|
      requires TreatedUpTo(Inner([]), t, now, f.index, op, metas, u)
      requires Child(Inner([]), t.kind, f.index, op, metas) == ModeOf(f, op)
      modifies this, operators`cache
      ensures Valid() && Metadata() == metas
      ensures ok ==> Underway(before, store, t, next) && TreatedUpTo(Inner([]), t, next, f.index + 1, op, metas, u)
      ensures !ok ==> Untouched(before, store, Foot(t)) && !Clean(Inner([]), ValueOf(t), op, metas)
      decreases ValueOf(t), 0
    {
      var i := f.index;
      ghost var here, done := store, t;
      NextElement(before, store, t, now, i, Inner([]), op, metas, operators.types, u);
      ok, done := ProcessField(store[l].kids[i], f, op, t.kids[i], metas);
      next := now[i := done];
      if ok {
        StepDone(before, here, store, t, now, i, done, Inner([]), op, metas, u);
      } else {
        StepFailed(before, here, store, t, now, i, Inner([]), op, metas);
      }
    }

    /** Processes the fields that carry tags. */
    method ProcessFields(l: Loc, meta: Meta, op: Op, ghost t: Tree, ghost metas: Metas)
      returns (ok: bool, ghost t': Tree)
      requires Valid() && Metadata() == metas && Holds(store, t) && t.loc == l && Typed(t, operators.types)
      requires t.TBranch? && t.kind.Struct? && !op.Unknown?
      requires t.kind.ty in metas && metas[t.kind.ty] == Some(meta) && Fits(meta.fields, |t.kids|)
      modifies this, operators`cache
      ensures Valid() && Metadata() == metas && Untouched(old(store), store, Foot(t))
      ensures ok <==> Clean(Inner([]), ValueOf(t), op, metas)
      ensures ok ==> Processed(old(store), store, t, t', Inner([]), op, metas, u)
      decreases ValueOf(t), 1
    {
      ghost var before, now := store, t.kids;
      var fields := meta.fields;
      BranchStarts(before, t);
      t' := t;
      ghost var upto: nat := 0;
      var j := 0;
      while j < |fields|
        invariant j <= |fields| && upto == (if j == 0 then 0 else fields[j - 1].index + 1)
        invariant Valid() && Metadata() == metas && Underway(before, store, t, now)
        invariant upto <= |now| && TreatedUpTo(Inner([]), t, now, upto, op, metas, u)
      {
        NextField(t, now, upto, fields, j, op, metas, meta.hasValidate, u);
        ok, now := ProcessNext(l, fields[j], op, before, t, now, metas);
        if !ok {
          return;
        }
        upto := fields[j].index + 1;
        j := j + 1;
      }
      FieldsFinished(before, store, t, now, upto, fields, op, metas, meta.hasValidate, u);
      ok, t' := true, TBranch(l, t.kind, now);
    }

    /** A struct type's metadata is looked up, or prepared, before its fields are processed. */
    method ProcessStruct(l: Loc, op: Op, ghost t: Tree, ghost metas: Metas) returns (ok: bool, ghost t': Tree)
      requires Valid() && Metadata() == metas && Holds(store, t) && t.loc == l && Typed(t, operators.types)
      modifies this, operators`cache
      ensures Valid() && Metadata() == metas && Untouched(old(store), store, Foot(t))
      ensures ok <==> t.TBranch? && t.kind.Struct? && Clean(Inner([]), ValueOf(t), op, metas)
      ensures ok ==> Processed(old(store), store, t, t', Inner([]), op, metas, u)
      decreases ValueOf(t), 2
    {
      var cell := store[l];
      if op.Unknown? || !cell.CBranch? || !cell.kind.Struct? {
        return false, t;
      }
      LoadKeepsMetas(operators.types, operators.Now(), cell.kind.ty);
      var meta := operators.Load(cell.kind.ty);
      if meta.None? {
        return false, t;
      }
      ok, t' := ProcessFields(l, meta.value, op, t, metas);
    }
  }
}
