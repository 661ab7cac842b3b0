/** What processing does, read off the declarations: which names in which tag of a field
    reach which strings, in which order. */
module BodyByTags {
  import opened Wrappers
  import opened ProcessorCache
  import opened BodyProcessor
  import opened BodyProcessorHeap

  // ----- one string -----

  /** The processors that the names stand for, one after the other; other names are passed over. */
  function RunNames(names: seq<string>, table: Table, s: string, u: TextLib): string
    decreases |names|
  {
    if names == [] then s
    else RunNames(names[1..], table, if names[0] in table then Run(table[names[0]], s, u) else s, u)
  }

  function NamesIn(tags: Option<seq<string>>): seq<string> { if tags.Some? then tags.value else [] }

  /** Normalizers come before sanitizers; with an operator only its own tag counts. */
  function StringByTags(f: FieldDecl, tables: Tables, op: Op, s: string, u: TextLib): string {
    var normalized := if op.Both? || op.Normalize? then RunNames(NamesIn(f.normalize), tables.normalize, s, u) else s;
    if op.Both? || op.Sanitize? then RunNames(NamesIn(f.sanitize), tables.sanitize, normalized, u) else normalized
  }

  lemma OneName(name: string, table: Table, s: string, u: TextLib)
    ensures RunNames([name], table, s, u) == if name in table then Run(table[name], s, u) else s
  {
    assert [name][1..] == [];
  }

  /** What the names of the built-in processors stand for. */
  lemma BuiltInEffects(s: string, u: TextLib)
    ensures RunNames(["trim"], BUILT_IN.normalize, s, u) == u.trim(s)
    ensures RunNames(["lowercase"], BUILT_IN.normalize, s, u) == u.lower(s)
    ensures RunNames(["uppercase"], BUILT_IN.normalize, s, u) == u.upper(s)
    ensures RunNames(["unaccent"], BUILT_IN.normalize, s, u) == u.nfc(Keep(u.nfd(s), c => !u.isMark(c)))
    ensures RunNames(["unicode"], BUILT_IN.normalize, s, u) == u.nfc(s)
    ensures RunNames(["html"], BUILT_IN.sanitize, s, u) == u.html(s)
    ensures RunNames(["alphanumeric"], BUILT_IN.sanitize, s, u) == Keep(s, c => u.isLetter(c) || u.isDigit(c))
    ensures RunNames(["numeric"], BUILT_IN.sanitize, s, u) == Keep(s, u.isDigit)
  {
    OneName("trim", BUILT_IN.normalize, s, u);
    OneName("lowercase", BUILT_IN.normalize, s, u);
    OneName("uppercase", BUILT_IN.normalize, s, u);
    OneName("unaccent", BUILT_IN.normalize, s, u);
    OneName("unicode", BUILT_IN.normalize, s, u);
    OneName("html", BUILT_IN.sanitize, s, u);
    OneName("alphanumeric", BUILT_IN.sanitize, s, u);
    OneName("numeric", BUILT_IN.sanitize, s, u);
  }

  lemma {:induction false} OneMoreName(names: seq<string>, table: Table, s: string, u: TextLib)
    requires names != []
    ensures var (front, last) := (names[..|names| - 1], names[|names| - 1]);
            RunNames(names, table, s, u) ==
            if last in table then Run(table[last], RunNames(front, table, s, u), u) else RunNames(front, table, s, u)
    decreases |names|
  {
    if |names| > 1 {
      var first := if names[0] in table then Run(table[names[0]], s, u) else s;
      OneMoreName(names[1..], table, first, u);
      assert names[1..][..|names| - 2] == names[..|names| - 1][1..];
    }
  }

  lemma {:induction false} SelectedRuns(names: seq<string>, table: Table, s: string, u: TextLib)
    ensures RunAll(Selected(names, table), s, u) == RunNames(names, table, s, u)
    decreases |names|
  {
    if names != [] {
      var (front, last) := (names[..|names| - 1], names[|names| - 1]);
      SelectedRuns(front, table, s, u);
      OneMoreName(names, table, s, u);
      var selected := Selected(front, table);
      if last in table {
        assert (selected + [table[last]])[..|selected|] == selected;
      } else {
        assert selected + [] == selected;
      }
    }
  }

  // ----- whole values -----

  /** The tables with which the metadata of each type were made. */
  type Moments = map<TypeId, Tables>

  const UNTAGGED := FieldDecl(true, false, None, None, true)

  /** A struct is processed field by field. */
  function StructByTags(v: Value, types: Types, at: Moments, op: Op, u: TextLib): Value
    decreases v, 0
  {
    if v.VBranch? && v.kind.Struct? && v.kind.ty in types && v.kind.ty in at then
      var decl := types[v.kind.ty];
      VBranch(v.kind, seq(|v.kids|, i requires 0 <= i < |v.kids| =>
        if i < |decl| then FieldByTags(decl[i], v.kids[i], types, at, at[v.kind.ty], op, u) else v.kids[i]))
    else v
  }

  /** A field without tags stays; one marked "dive" is processed element by element. */
  function FieldByTags(f: FieldDecl, x: Value, types: Types, at: Moments, tables: Tables, op: Op, u: TextLib): Value
    decreases x, 4
  {
    if !f.exported || (f.normalize.None? && f.sanitize.None?) then x
    else if "dive" in NamesIn(f.normalize) || "dive" in NamesIn(f.sanitize) then
      ElementsByTags(f, x, types, at, tables, op, u)
    else ValueByTags(f, x, types, at, tables, op, u)
  }

  /** The elements of a list or a map; what a pointer or a struct holds, without the field's own
      processors. */
  function ElementsByTags(f: FieldDecl, x: Value, types: Types, at: Moments, tables: Tables, op: Op, u: TextLib): Value
    decreases x, 3
  {
    match x
    case VLeaf(_) => x
    case VBranch(kind, kids) =>
      if kind.Slice? || kind.Array? || kind.Map? then
        VBranch(kind, seq(|kids|, i requires 0 <= i < |kids| => ValueByTags(f, kids[i], types, at, tables, op, u)))
      else ValueByTags(UNTAGGED, x, types, at, tables, op, u)
  }

  /** A value, or what one pointer points to. */
  function ValueByTags(f: FieldDecl, x: Value, types: Types, at: Moments, tables: Tables, op: Op, u: TextLib): Value
    decreases x, 2
  {
    if x.VBranch? && x.kind.Pointer? then
      VBranch(x.kind, seq(|x.kids|, i requires 0 <= i < |x.kids| =>
        HereByTags(f, x.kids[i], types, at, tables, op, u)))
    else HereByTags(f, x, types, at, tables, op, u)
  }

  /** A struct goes by its own tags; otherwise a string, also behind a pointer, is processed and
      anything else stays. */
  function HereByTags(f: FieldDecl, x: Value, types: Types, at: Moments, tables: Tables, op: Op, u: TextLib): Value
    decreases x, 1
  {
    match x
    case VLeaf(_) => TextByTags(f, x, tables, op, u)
    case VBranch(kind, kids) =>
      if kind.Struct? then StructByTags(x, types, at, op, u)
      else if kind.Pointer? then
        VBranch(kind, seq(|kids|, i requires 0 <= i < |kids| => TextByTags(f, kids[i], tables, op, u)))
      else x
  }

  function TextByTags(f: FieldDecl, x: Value, tables: Tables, op: Op, u: TextLib): Value {
    if x.VLeaf? && x.leaf.Str? then VLeaf(Str(StringByTags(f, tables, op, x.leaf.s, u))) else x
  }

  // ----- the pass does just that -----

  /** The metadata of every type were made from its declaration at some moment. */
  ghost predicate MadeAt(metas: Metas, types: Types, at: Moments) {
    && metas.Keys == types.Keys == at.Keys
    && forall ty <- types.Keys :: metas[ty] == Build(types[ty], at[ty])
  }

  function Cached(f: FieldDecl, i: nat, tables: Tables): CachedField {
    CachedField(i, Processors(f.normalize, tables.normalize), Processors(f.sanitize, tables.sanitize))
  }

  lemma FieldMetaGrows(front: seq<CachedField>, last: CachedField, i: nat)
    ensures FieldMeta(front + [last], i) == if last.index == i then Some(last) else FieldMeta(front, i)
  {
    assert (front + [last])[..|front|] == front;
  }

  lemma {:induction false} FieldMetaOf(decl: seq<FieldDecl>, tables: Tables, i: nat)
    ensures FieldMeta(Fields(decl, tables), i) ==
            if i < |decl| && Tagged(decl[i]) then Some(Cached(decl[i], i, tables)) else None
    decreases |decl|
  {
    if decl != [] {
      var end := |decl| - 1;
      var front := Fields(decl[..end], tables);
      FieldMetaOf(decl[..end], tables, i);
      FieldMetaGrows(front, Cached(decl[end], end, tables), i);
      assert front + [] == front;
    }
  }

  /** The functions do to a string what the tags say. */
  ghost predicate Agree(fs: seq<Fn>, f: FieldDecl, tables: Tables, op: Op, u: TextLib) {
    forall s :: RunAll(fs, s, u) == StringByTags(f, tables, op, s, u)
  }

  lemma FuncsAgree(f: FieldDecl, i: nat, tables: Tables, op: Op, u: TextLib)
    requires !op.Unknown?
    ensures var cached := Cached(f, i, tables);
            Agree(FuncsOf(cached, op), f, tables, op, u)
  {
    var cached := Cached(f, i, tables);
    var (a, b) := (Selected(NamesIn(f.normalize), tables.normalize), Selected(NamesIn(f.sanitize), tables.sanitize));
    forall s ensures RunAll(FuncsOf(cached, op), s, u) == StringByTags(f, tables, op, s, u) {
      SelectedRuns(NamesIn(f.normalize), tables.normalize, s, u);
      SelectedRuns(NamesIn(f.sanitize), tables.sanitize, s, u);
      SelectedRuns(NamesIn(f.sanitize), tables.sanitize, RunNames(NamesIn(f.normalize), tables.normalize, s, u), u);
      RunsJoin(a, b, s, u);
      assert FuncsOf(cached, op) == match op
                                    case Both => a + b
                                    case Normalize => a
                                    case Sanitize => b
                                    case Unknown => [];
    }
  }

  lemma NoFuncsAgree(tables: Tables, op: Op, u: TextLib)
    ensures Agree([], UNTAGGED, tables, op, u)
  {}

  lemma {:induction false} StructIsByTags(mode: Mode, v: Value, types: Types, at: Moments, op: Op,
          metas: Metas, u: TextLib)
    requires MadeAt(metas, types, at) && v.VBranch? && v.kind.Struct? && !mode.Off? && !mode.Text?
    requires Clean(mode, v, op, metas)
    ensures Treat(mode, v, op, metas, u) == StructByTags(v, types, at, op, u)
    decreases v, 0
  {
    var (ty, w) := (v.kind.ty, StructByTags(v, types, at, op, u));
    forall i | 0 <= i < |v.kids|
      ensures Treat(Child(mode, v.kind, i, op, metas), v.kids[i], op, metas, u) == w.kids[i]
    {
      FieldMetaOf(types[ty], at[ty], i);
      assert metas[ty] == Build(types[ty], at[ty]);
      if i < |types[ty]| && Tagged(types[ty][i]) {
        assert Child(mode, v.kind, i, op, metas) == ModeOf(Cached(types[ty][i], i, at[ty]), op);
        FieldIsByTags(types[ty][i], i, v.kids[i], types, at, at[ty], op, metas, u);
        assert w.kids[i] == FieldByTags(types[ty][i], v.kids[i], types, at, at[ty], op, u);
      } else {
        assert Child(mode, v.kind, i, op, metas) == Off;
        OffIsIdentity(Off, v.kids[i], op, metas, u);
        if i < |types[ty]| {
          assert w.kids[i] == FieldByTags(types[ty][i], v.kids[i], types, at, at[ty], op, u);
        }
      }
    }
    assert TreatAll(mode, v.kind, v.kids, op, metas, u) == w.kids;
  }

  lemma {:induction false} FieldIsByTags(f: FieldDecl, i: nat, x: Value, types: Types, at: Moments, tables: Tables,
          op: Op, metas: Metas, u: TextLib)
    requires MadeAt(metas, types, at) && Tagged(f) && !op.Unknown?
    requires var cached := Cached(f, i, tables);
             Clean(ModeOf(cached, op), x, op, metas)
    ensures var cached := Cached(f, i, tables);
            Treat(ModeOf(cached, op), x, op, metas, u) == FieldByTags(f, x, types, at, tables, op, u)
    decreases x, 4
  {
    var cached := Cached(f, i, tables);
    FuncsAgree(f, i, tables, op, u);
    if AnyDive(cached) {
      DiveIsByTags(FuncsOf(cached, op), f, x, types, at, tables, op, metas, u);
    } else {
      ApplyIsByTags(FuncsOf(cached, op), f, x, types, at, tables, op, metas, u);
    }
  }

  lemma {:induction false} DiveIsByTags(fs: seq<Fn>, f: FieldDecl, x: Value, types: Types, at: Moments, tables: Tables,
          op: Op, metas: Metas, u: TextLib)
    requires MadeAt(metas, types, at) && Agree(fs, f, tables, op, u) && Clean(Dive(fs), x, op, metas)
    ensures Treat(Dive(fs), x, op, metas, u) == ElementsByTags(f, x, types, at, tables, op, u)
    decreases x, 3
  {
    if x.VLeaf? {
      OffIsIdentity(Dive(fs), x, op, metas, u);
    } else if x.kind.Struct? {
      StructIsByTags(Dive(fs), x, types, at, op, metas, u);
      assert ElementsByTags(f, x, types, at, tables, op, u) == HereByTags(UNTAGGED, x, types, at, tables, op, u);
    } else if x.kind.Pointer? {
      var y := ValueByTags(UNTAGGED, x, types, at, tables, op, u);
      NoFuncsAgree(tables, op, u);
      forall i | 0 <= i < |x.kids|
        ensures Treat(Child(Dive(fs), x.kind, i, op, metas), x.kids[i], op, metas, u) == y.kids[i]
      {
        InnerIsByTags([], UNTAGGED, x.kids[i], types, at, tables, op, metas, u);
      }
      assert TreatAll(Dive(fs), x.kind, x.kids, op, metas, u) == y.kids;
    } else {
      var y := ElementsByTags(f, x, types, at, tables, op, u);
      forall i | 0 <= i < |x.kids|
        ensures Treat(Child(Dive(fs), x.kind, i, op, metas), x.kids[i], op, metas, u) == y.kids[i]
      {
        ApplyIsByTags(fs, f, x.kids[i], types, at, tables, op, metas, u);
      }
      assert TreatAll(Dive(fs), x.kind, x.kids, op, metas, u) == y.kids;
    }
  }

  lemma {:induction false} ApplyIsByTags(fs: seq<Fn>, f: FieldDecl, x: Value, types: Types, at: Moments, tables: Tables,
          op: Op, metas: Metas, u: TextLib)
    requires MadeAt(metas, types, at) && Agree(fs, f, tables, op, u) && Clean(Apply(fs), x, op, metas)
    ensures Treat(Apply(fs), x, op, metas, u) == ValueByTags(f, x, types, at, tables, op, u)
    decreases x, 2
  {
    if x.VBranch? && x.kind.Pointer? {
      var y := ValueByTags(f, x, types, at, tables, op, u);
      forall i | 0 <= i < |x.kids|
        ensures Treat(Child(Apply(fs), x.kind, i, op, metas), x.kids[i], op, metas, u) == y.kids[i]
      {
        InnerIsByTags(fs, f, x.kids[i], types, at, tables, op, metas, u);
      }
      assert TreatAll(Apply(fs), x.kind, x.kids, op, metas, u) == y.kids;
    } else if x.VBranch? && x.kind.Struct? {
      StructIsByTags(Apply(fs), x, types, at, op, metas, u);
    } else {
      OthersStay(Apply(fs), x, op, metas, u);
    }
  }

  lemma {:induction false} InnerIsByTags(fs: seq<Fn>, f: FieldDecl, x: Value, types: Types, at: Moments, tables: Tables,
          op: Op, metas: Metas, u: TextLib)
    requires MadeAt(metas, types, at) && Agree(fs, f, tables, op, u) && Clean(Inner(fs), x, op, metas)
    ensures Treat(Inner(fs), x, op, metas, u) == HereByTags(f, x, types, at, tables, op, u)
    decreases x, 1
  {
    if x.VBranch? && x.kind.Struct? {
      StructIsByTags(Inner(fs), x, types, at, op, metas, u);
    } else if x.VBranch? && x.kind.Pointer? {
      var y := HereByTags(f, x, types, at, tables, op, u);
      forall i | 0 <= i < |x.kids|
        ensures Treat(Child(Inner(fs), x.kind, i, op, metas), x.kids[i], op, metas, u) == y.kids[i]
      {
        OthersStay(Text(fs), x.kids[i], op, metas, u);
      }
      assert TreatAll(Inner(fs), x.kind, x.kids, op, metas, u) == y.kids;
    } else {
      OthersStay(Inner(fs), x, op, metas, u);
    }
  }

  /** No function looks into a list or a map; behind one pointer too many it looks at strings only. */
  lemma {:induction false} OthersStay(mode: Mode, x: Value, op: Op, metas: Metas, u: TextLib)
    requires mode.Apply? || mode.Inner? || mode.Text?
    requires x.VBranch? ==> mode.Text? || (!x.kind.Struct? && !x.kind.Pointer?)
    ensures x.VBranch? ==> Treat(mode, x, op, metas, u) == x
  {
    if x.VBranch? {
      forall i | 0 <= i < |x.kids|
        ensures Treat(Child(mode, x.kind, i, op, metas), x.kids[i], op, metas, u) == x.kids[i]
      {
        OffIsIdentity(Off, x.kids[i], op, metas, u);
      }
      assert TreatAll(mode, x.kind, x.kids, op, metas, u) == x.kids;
    }
  }

  // ----- when it succeeds -----

  /** The struct, and every struct that is entered from its tagged fields, is of a type without a
      dive into what is no struct, list or map. */
  predicate StructUsable(v: Value, types: Types)
    decreases v, 0
  {
    v.VBranch? && v.kind.Struct? ==>
      && v.kind.ty in types && (forall f <- types[v.kind.ty] :: f.exported && HasDive(f) ==> f.diveable)
      && forall i | 0 <= i < |v.kids| && i < |types[v.kind.ty]| :: FieldUsable(types[v.kind.ty][i], v.kids[i], types)
  }

  predicate FieldUsable(f: FieldDecl, x: Value, types: Types)
    decreases x, 3
  {
    f.exported && (f.normalize.Some? || f.sanitize.Some?) ==>
      if HasDive(f) && x.VBranch? && (x.kind.Slice? || x.kind.Array? || x.kind.Map?) then
        forall i | 0 <= i < |x.kids| :: ValueUsable(x.kids[i], types)
      else ValueUsable(x, types)
  }

  predicate HasDive(f: FieldDecl) { "dive" in NamesIn(f.normalize) || "dive" in NamesIn(f.sanitize) }

  predicate ValueUsable(x: Value, types: Types)
    decreases x, 2
  {
    if x.VBranch? && x.kind.Pointer? then forall i | 0 <= i < |x.kids| :: StructUsable(x.kids[i], types)
    else StructUsable(x, types)
  }

  lemma {:induction false} StructIsClean(mode: Mode, v: Value, types: Types, at: Moments, op: Op, metas: Metas)
    requires MadeAt(metas, types, at) && v.VBranch? && v.kind.Struct? && !mode.Off? && !mode.Text? && !op.Unknown?
    ensures Clean(mode, v, op, metas) <==> StructUsable(v, types)
    decreases v, 0
  {
    var ty := v.kind.ty;
    assert forall f :: BadDive(f) <==> f.exported && HasDive(f) && !f.diveable;
    if ty in types && TypeOk(types[ty]) {
      assert metas[ty] == Build(types[ty], at[ty]);
      forall i | 0 <= i < |v.kids|
        ensures Clean(Child(mode, v.kind, i, op, metas), v.kids[i], op, metas) <==>
                (i < |types[ty]| ==> FieldUsable(types[ty][i], v.kids[i], types))
      {
        FieldMetaOf(types[ty], at[ty], i);
        if i < |types[ty]| && Tagged(types[ty][i]) {
          FieldIsClean(types[ty][i], i, v.kids[i], types, at, at[ty], op, metas);
        } else {
          NotEntered(Off, v.kids[i], op, metas);
        }
      }
    }
  }

  /** What is not looked at, or only as a string, is not entered. */
  lemma {:induction false} NotEntered(mode: Mode, x: Value, op: Op, metas: Metas)
    requires mode.Text? || mode.Off?
    ensures Clean(mode, x, op, metas)
    decreases x
  {
    if x.VBranch? {
      forall i | 0 <= i < |x.kids| ensures Clean(Child(mode, x.kind, i, op, metas), x.kids[i], op, metas) {
        NotEntered(Off, x.kids[i], op, metas);
      }
    }
  }

  lemma {:induction false} FieldIsClean(f: FieldDecl, i: nat, x: Value, types: Types, at: Moments, tables: Tables,
          op: Op, metas: Metas)
    requires MadeAt(metas, types, at) && Tagged(f) && !op.Unknown?
    ensures Clean(ModeOf(Cached(f, i, tables), op), x, op, metas) <==> FieldUsable(f, x, types)
    decreases x, 3
  {
    var cached := Cached(f, i, tables);
    var fs := FuncsOf(cached, op);
    assert AnyDive(cached) <==> HasDive(f);
    if AnyDive(cached) && x.VBranch? && !x.kind.Struct? && !x.kind.Pointer? {
      forall k | 0 <= k < |x.kids|
        ensures Clean(Child(Dive(fs), x.kind, k, op, metas), x.kids[k], op, metas) <==> ValueUsable(x.kids[k], types)
      {
        ValueIsClean(Apply(fs), x.kids[k], types, at, op, metas);
      }
    } else {
      ValueIsClean(ModeOf(cached, op), x, types, at, op, metas);
    }
  }

  /** Processed, or dived into when it is no list or map. */
  lemma {:induction false} ValueIsClean(mode: Mode, x: Value, types: Types, at: Moments, op: Op, metas: Metas)
    requires MadeAt(metas, types, at) && !op.Unknown?
    requires mode.Apply? || (mode.Dive? && (x.VBranch? ==> x.kind.Struct? || x.kind.Pointer?))
    ensures Clean(mode, x, op, metas) <==> ValueUsable(x, types)
    decreases x, 2
  {
    if x.VBranch? && x.kind.Struct? {
      StructIsClean(mode, x, types, at, op, metas);
    } else if x.VBranch? {
      forall i | 0 <= i < |x.kids|
        ensures var child := Child(mode, x.kind, i, op, metas);
                if x.kind.Pointer? then Clean(child, x.kids[i], op, metas) <==> StructUsable(x.kids[i], types)
                else Clean(child, x.kids[i], op, metas)
      {
        if x.kind.Pointer? {
          InnerIsClean(Functions(Child(mode, x.kind, i, op, metas)), x.kids[i], types, at, op, metas);
        } else {
          NotEntered(Off, x.kids[i], op, metas);
        }
      }
    }
  }

  lemma {:induction false} InnerIsClean(fs: seq<Fn>, x: Value, types: Types, at: Moments, op: Op, metas: Metas)
    requires MadeAt(metas, types, at) && !op.Unknown?
    ensures Clean(Inner(fs), x, op, metas) <==> StructUsable(x, types)
    decreases x, 1
  {
    if x.VBranch? && x.kind.Struct? {
      StructIsClean(Inner(fs), x, types, at, op, metas);
    } else if x.VBranch? {
      forall i | 0 <= i < |x.kids| ensures Clean(Child(Inner(fs), x.kind, i, op, metas), x.kids[i], op, metas) {
        NotEntered(Child(Inner(fs), x.kind, i, op, metas), x.kids[i], op, metas);
      }
    }
  }

  // ----- the processor does just that -----

  /** In a run the metadata of a type were made by some step up to now. */
  ghost predicate MadeUpTo(states: seq<State>, j: nat, ty: TypeId, metas: Metas, types: Types, i: nat) {
    i <= j < |states| && ty in types && ty in metas && metas[ty] == Build(types[ty], states[i].tables)
  }

  /** Every reachable state has such moments: a cached type has that of its first use, any other
      type has the present. */
  lemma MomentsOfRun(states: seq<State>, actions: seq<Action>, types: Types, j: nat) returns (at: Moments)
    requires IsRun(states, actions, types) && j < |states|
    ensures MadeAt(MetasOf(types, states[j]), types, at)
    ensures forall ty <- types.Keys :: exists i :: 0 <= i <= j && at[ty] == states[i].tables
  {
    var metas := MetasOf(types, states[j]);
    forall ty <- types.Keys ensures exists i: nat :: MadeUpTo(states, j, ty, metas, types, i) {
      var i := j;
      if ty in states[j].cache {
        i := FilledAt(states, actions, types, j, ty);
      }
      assert MadeUpTo(states, j, ty, metas, types, i);
    }
    at := map ty <- types.Keys :: var i: nat :| MadeUpTo(states, j, ty, metas, types, i); states[i].tables;
  }

  /** Processing a struct in place leaves what its declarations say, and succeeds exactly when the
      operator exists and all that is entered is usable. */
  method ProcessByTags(p: Processor, l: Loc, op: Op, ghost t: Tree, ghost at: Moments)
    returns (ok: bool, ghost t': Tree)
    requires p.Valid() && Holds(p.store, t) && t.loc == l && Typed(t, p.operators.types)
    requires MadeAt(p.Metadata(), p.operators.types, at)
    modifies p, p.operators`cache
    ensures ok ==> Holds(p.store, t') && t'.loc == l
    ensures ok ==> ValueOf(t') == StructByTags(ValueOf(t), p.operators.types, at, op, p.u)
    ensures ok <==> t.TBranch? && t.kind.Struct? && !op.Unknown? && StructUsable(ValueOf(t), p.operators.types)
  {
    ghost var metas := p.Metadata();
    ok, t' := p.ProcessStruct(l, op, t, metas);
    if t.TBranch? && t.kind.Struct? && !op.Unknown? {
      StructIsClean(Inner([]), ValueOf(t), p.operators.types, at, op, metas);
    }
    if ok {
      StructIsByTags(Inner([]), ValueOf(t), p.operators.types, at, op, metas, p.u);
    }
  }

  /** A string under the tags of its field: with no operator its normalize names come first and
      its sanitize names after them, with an operator the names of that tag alone count. */
  predicate StringDone(x: Value, y: Value, f: FieldDecl, tables: Tables, op: Op, u: TextLib) {
    x.VLeaf? && x.leaf.Str? ==>
      y == VLeaf(Str(match op
                     case Both => RunNames(NamesIn(f.sanitize), tables.sanitize,
                                           RunNames(NamesIn(f.normalize), tables.normalize, x.leaf.s, u), u)
                     case Normalize => RunNames(NamesIn(f.normalize), tables.normalize, x.leaf.s, u)
                     case Sanitize => RunNames(NamesIn(f.sanitize), tables.sanitize, x.leaf.s, u)
                     case Unknown => x.leaf.s))
  }

  /** So do a string field without a dive, */
  lemma StringField(v: Value, i: nat, types: Types, at: Moments, op: Op, u: TextLib)
    requires v.VBranch? && v.kind.Struct? && v.kind.ty in types && v.kind.ty in at
    requires i < |v.kids| && i < |types[v.kind.ty]| && types[v.kind.ty][i].exported && v.kids[i].VLeaf?
    requires "dive" !in NamesIn(types[v.kind.ty][i].normalize) && "dive" !in NamesIn(types[v.kind.ty][i].sanitize)
    ensures StringDone(v.kids[i], StructByTags(v, types, at, op, u).kids[i], types[v.kind.ty][i], at[v.kind.ty], op, u)
  {
    var (f, x, tables) := (types[v.kind.ty][i], v.kids[i], at[v.kind.ty]);
    if f.normalize.None? && f.sanitize.None? {
      UntaggedStays(f, x, tables, op, u);
    } else {
      assert ValueByTags(f, x, types, at, tables, op, u) == HereByTags(f, x, types, at, tables, op, u);
    }
    assert FieldByTags(f, x, types, at, tables, op, u) == TextByTags(f, x, tables, op, u);
  }

  lemma UntaggedStays(f: FieldDecl, x: Value, tables: Tables, op: Op, u: TextLib)
    requires f.normalize.None? && f.sanitize.None?
    ensures TextByTags(f, x, tables, op, u) == x
  {}

  /** and every string in a list or a map of a field with a dive. */
  lemma StringElement(v: Value, i: nat, k: nat, types: Types, at: Moments, op: Op, u: TextLib)
    requires v.VBranch? && v.kind.Struct? && v.kind.ty in types && v.kind.ty in at
    requires i < |v.kids| && i < |types[v.kind.ty]| && types[v.kind.ty][i].exported && v.kids[i].VBranch?
    requires v.kids[i].kind.Slice? || v.kids[i].kind.Array? || v.kids[i].kind.Map?
    requires "dive" in NamesIn(types[v.kind.ty][i].normalize) || "dive" in NamesIn(types[v.kind.ty][i].sanitize)
    requires k < |v.kids[i].kids| && v.kids[i].kids[k].VLeaf?
    ensures var w := StructByTags(v, types, at, op, u).kids[i];
            && w.VBranch? && |w.kids| == |v.kids[i].kids|
            && StringDone(v.kids[i].kids[k], w.kids[k], types[v.kind.ty][i], at[v.kind.ty], op, u)
  {
    var (f, x, tables) := (types[v.kind.ty][i], v.kids[i], at[v.kind.ty]);
    assert FieldByTags(f, x, types, at, tables, op, u) == ElementsByTags(f, x, types, at, tables, op, u);
    assert ValueByTags(f, x.kids[k], types, at, tables, op, u) == TextByTags(f, x.kids[k], tables, op, u);
  }
}
