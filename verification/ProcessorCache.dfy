/** Tag-driven field processors: the grow-only operator tables, what a struct type's tags select from them, and the
    cache that keeps the selection of the first use. */
module ProcessorCache {
  import opened Wrappers

  // Processor functions

  /** The built-in processors, and registered ones by number. */
  datatype Fn = Trim | Lowercase | Uppercase | Unaccent | Unicode | Html | Alphanumeric | Numeric | Custom(id: nat)

  /** The foreign text functions and Unicode classes the processors are made of. */
  datatype TextLib = TextLib(
    trim: string -> string,
    lower: string -> string,
    upper: string -> string,
    nfc: string -> string,
    nfd: string -> string,
    html: string -> string,
    isLetter: char -> bool,
    isDigit: char -> bool,
    isMark: char -> bool,
    custom: (nat, string) -> string)

  function Keep(s: string, keep: char -> bool): string {
    if s == [] then []
    else Keep(s[..|s| - 1], keep) + if keep(s[|s| - 1]) then [s[|s| - 1]] else []
  }

  /** The rune filter of the sanitizers. */
  method KeepRunes(s: string, keep: char -> bool) returns (r: string)
    ensures r == Keep(s, keep)
  {
    r := [];
    for i := 0 to |s|
      invariant r == Keep(s[..i], keep)
    {
      assert s[..i + 1][..i] == s[..i];
      if keep(s[i]) {
        r := r + [s[i]];
      }
    }
    assert s[..|s|] == s;
  }

  /** Exactly the wanted runes survive. */
  lemma {:induction false} KeepsWanted(s: string, keep: char -> bool, c: char)
    ensures c in Keep(s, keep) <==> c in s && keep(c)
  {
    if s != [] {
      KeepsWanted(s[..|s| - 1], keep, c);
    }
  }

  lemma {:induction false} KeepAppends(s: string, c: char, keep: char -> bool)
    ensures Keep(s + [c], keep) == Keep(s, keep) + if keep(c) then [c] else []
  {
    assert (s + [c])[..|s|] == s;
  }

  /** Filtering by the weaker of two tests, before or after, makes no difference. */
  lemma {:induction false} StrongerFilterWins(s: string, keep: char -> bool, weaker: char -> bool)
    requires forall c :: keep(c) ==> weaker(c)
    ensures Keep(Keep(s, keep), weaker) == Keep(s, keep)
    ensures Keep(Keep(s, weaker), keep) == Keep(s, keep)
  {
    if s != [] {
      var front, last := s[..|s| - 1], s[|s| - 1];
      StrongerFilterWins(front, keep, weaker);
      KeepAppends(Keep(front, keep), last, weaker);
      KeepAppends(Keep(front, weaker), last, keep);
      assert Keep(front, keep) + [] == Keep(front, keep) && Keep(front, weaker) + [] == Keep(front, weaker);
    }
  }

  function Run(fn: Fn, s: string, u: TextLib): string {
    match fn
    case Trim => u.trim(s)
    case Lowercase => u.lower(s)
    case Uppercase => u.upper(s)
    case Unaccent => u.nfc(Keep(u.nfd(s), c => !u.isMark(c)))
    case Unicode => u.nfc(s)
    case Html => u.html(s)
    case Alphanumeric => Keep(s, c => u.isLetter(c) || u.isDigit(c))
    case Numeric => Keep(s, u.isDigit)
    case Custom(id) => u.custom(id, s)
  }

  /** Sanitizing to digits after sanitizing to letters and digits, or the other way round, is sanitizing to digits. */
  lemma {:induction false} NumericAbsorbs(s: string, u: TextLib)
    ensures Run(Numeric, Run(Alphanumeric, s, u), u) == Run(Numeric, s, u)
    ensures Run(Alphanumeric, Run(Numeric, s, u), u) == Run(Numeric, s, u)
  {
    StrongerFilterWins(s, u.isDigit, c => u.isLetter(c) || u.isDigit(c));
  }

  // Tags and tables

  type Table = map<string, Fn>

  datatype Tables = Tables(normalize: Table, sanitize: Table)

  const BUILT_IN := Tables(
    map["trim" := Trim, "lowercase" := Lowercase, "uppercase" := Uppercase, "unaccent" := Unaccent,
      "unicode" := Unicode],
    map["html" := Html, "alphanumeric" := Alphanumeric, "numeric" := Numeric])

  /** A declared field: exported or not, and its tags. A tag that is absent or empty is None. */
  datatype FieldDecl = FieldDecl(exported: bool, validate: bool, normalize: Option<seq<string>>,
                                 sanitize: Option<seq<string>>, diveable: bool)

  datatype TagProcessors = TagProcessors(funcs: seq<Fn>, dive: bool)

  datatype CachedField = CachedField(index: nat, normalize: Option<TagProcessors>, sanitize: Option<TagProcessors>)

  datatype Meta = Meta(fields: seq<CachedField>, hasValidate: bool)

  const DIVE := "dive"

  function Selected(tags: seq<string>, table: Table): seq<Fn> {
    if tags == [] then []
    else
      var last := tags[|tags| - 1];
      Selected(tags[..|tags| - 1], table) + if last in table then [table[last]] else []
  }

  function Processors(tags: Option<seq<string>>, table: Table): Option<TagProcessors> {
    match tags
    case None => None
    case Some(names) => Some(TagProcessors(Selected(names, table), DIVE in names))
  }

  predicate Dives(tags: Option<seq<string>>) { tags.Some? && DIVE in tags.value }

  predicate Tagged(f: FieldDecl) { f.exported && (f.normalize.Some? || f.sanitize.Some?) }

  /** Marked "dive" without being a struct, list or map. */
  predicate BadDive(f: FieldDecl) { f.exported && !f.diveable && (Dives(f.normalize) || Dives(f.sanitize)) }

  predicate TypeOk(decl: seq<FieldDecl>) { forall f | f in decl :: !BadDive(f) }

  predicate HasValidate(decl: seq<FieldDecl>) { exists f :: f in decl && f.exported && f.validate }

  function Fields(decl: seq<FieldDecl>, tables: Tables): seq<CachedField> {
    if decl == [] then []
    else
      var (i, f) := (|decl| - 1, decl[|decl| - 1]);
      Fields(decl[..i], tables)
      + if Tagged(f)
        then [CachedField(i, Processors(f.normalize, tables.normalize), Processors(f.sanitize, tables.sanitize))]
        else []
  }

  function Build(decl: seq<FieldDecl>, tables: Tables): Option<Meta> {
    if TypeOk(decl) then Some(Meta(Fields(decl, tables), HasValidate(decl))) else None
  }

  /** Fields that are not exported make no difference, whatever their tags. */
  lemma {:induction false} UnexportedIsIgnored(decl: seq<FieldDecl>, i: nat, f: FieldDecl, tables: Tables)
    requires i < |decl| && !decl[i].exported && !f.exported
    ensures Build(decl[i := f], tables) == Build(decl, tables)
  {
    var other := decl[i := f];
    SameFields(decl, i, f, tables);
    assert TypeOk(other) <==> TypeOk(decl) by {
      assert forall k | 0 <= k < |decl| && k != i :: decl[k] == other[k];
      assert (forall k | 0 <= k < |decl| :: !BadDive(decl[k])) <==> forall k | 0 <= k < |other| :: !BadDive(other[k]);
    }
    assert HasValidate(other) <==> HasValidate(decl) by {
      forall g | g in decl && g.exported ensures g in other {
        var k :| 0 <= k < |decl| && decl[k] == g;
        assert other[k] == g;
      }
      forall g | g in other && g.exported ensures g in decl {
        var k :| 0 <= k < |other| && other[k] == g;
        assert decl[k] == g;
      }
    }
  }

  lemma {:induction false} SameFields(decl: seq<FieldDecl>, i: nat, f: FieldDecl, tables: Tables)
    requires i < |decl| && !decl[i].exported && !f.exported
    ensures Fields(decl[i := f], tables) == Fields(decl, tables)
    decreases |decl|
  {
    var end := |decl| - 1;
    if i < end {
      SameFields(decl[..end], i, f, tables);
      assert decl[i := f][..end] == decl[..end][i := f];
    } else {
      assert decl[i := f][..end] == decl[..end];
    }
  }

  method SelectFuncs(tags: seq<string>, table: Table) returns (funcs: seq<Fn>)
    ensures funcs == Selected(tags, table)
  {
    funcs := [];
    for i := 0 to |tags|
      invariant funcs == Selected(tags[..i], table)
    {
      assert tags[..i + 1][..i] == tags[..i];
      if tags[i] in table {
        funcs := funcs + [table[tags[i]]];
      }
    }
    assert tags[..|tags|] == tags;
  }

  method BuildStructFields(decl: seq<FieldDecl>, tables: Tables) returns (r: Option<Meta>)
    ensures r == Build(decl, tables)
  {
    var fields: seq<CachedField>, hasValidate := [], false;
    for i := 0 to |decl|
      invariant fields == Fields(decl[..i], tables)
      invariant TypeOk(decl[..i]) && (hasValidate <==> HasValidate(decl[..i]))
    {
      var f := decl[i];
      assert decl[..i + 1] == decl[..i] + [f];
      if f.exported {
        hasValidate := hasValidate || f.validate;
        var fs := CachedField(i, None, None);
        if f.normalize.Some? {
          var dive := DIVE in f.normalize.value;
          if dive && !f.diveable {
            assert BadDive(f) && f in decl;
            return None;
          }
          var funcs := SelectFuncs(f.normalize.value, tables.normalize);
          fs := fs.(normalize := Some(TagProcessors(funcs, dive)));
        }
        if f.sanitize.Some? {
          var dive := DIVE in f.sanitize.value;
          if dive && !f.diveable {
            assert BadDive(f) && f in decl;
            return None;
          }
          var funcs := SelectFuncs(f.sanitize.value, tables.sanitize);
          fs := fs.(sanitize := Some(TagProcessors(funcs, dive)));
        }
        if f.normalize.Some? || f.sanitize.Some? {
          fields := fields + [fs];
        }
      }
    }
    assert decl[..|decl|] == decl;
    r := Some(Meta(fields, hasValidate));
  }

  // How selections age as tables grow

  predicate Subsequence(a: seq<Fn>, b: seq<Fn>) {
    a == [] || (b != [] && (
      (a[|a| - 1] == b[|b| - 1] && Subsequence(a[..|a| - 1], b[..|b| - 1])) || Subsequence(a, b[..|b| - 1])))
  }

  ghost predicate Extends(later: Table, earlier: Table) {
    forall name | name in earlier :: name in later && later[name] == earlier[name]
  }

  ghost predicate TablesExtend(later: Tables, earlier: Tables) {
    Extends(later.normalize, earlier.normalize) && Extends(later.sanitize, earlier.sanitize)
  }

  /** One of the names has been registered in between. */
  predicate Newer(names: seq<string>, later: Table, earlier: Table) {
    exists name :: name in names && name in later && name !in earlier
  }

  /** An earlier selection is part of a later one, in order, and is all of it unless a name has been added. */
  lemma {:induction false} SelectionAges(names: seq<string>, later: Table, earlier: Table)
    requires Extends(later, earlier)
    ensures Subsequence(Selected(names, earlier), Selected(names, later))
    ensures Selected(names, earlier) == Selected(names, later) <==> !Newer(names, later, earlier)
    ensures |Selected(names, earlier)| <= |Selected(names, later)|
    ensures |Selected(names, earlier)| == |Selected(names, later)| <==> !Newer(names, later, earlier)
  {
    if names != [] {
      var front, last := names[..|names| - 1], names[|names| - 1];
      SelectionAges(front, later, earlier);
      assert Newer(names, later, earlier) <==> Newer(front, later, earlier) || (last in later && last !in earlier) by {
        if name :| name in names && name in later && name !in earlier {
          assert name in front || name == last;
        }
      }
      var (a, b) := (Selected(front, earlier), Selected(front, later));
      if last in earlier {
        var x := earlier[last];
        assert (a + [x])[..|a|] == a && (b + [x])[..|b|] == b;
      } else if last in later {
        assert a + [] == a;
        assert (b + [later[last]])[..|b|] == b;
      } else {
        assert a + [] == a && b + [] == b;
      }
    }
  }

  /** What a cached selection promises against a rebuilt one: same fields, each list a subsequence. */
  predicate Older(a: Option<TagProcessors>, b: Option<TagProcessors>) {
    match (a, b)
    case (None, None) => true
    case (Some(x), Some(y)) => x.dive == y.dive && Subsequence(x.funcs, y.funcs)
    case _ => false
  }

  predicate FieldOlder(a: CachedField, b: CachedField) {
    a.index == b.index && Older(a.normalize, b.normalize) && Older(a.sanitize, b.sanitize)
  }

  predicate FieldsOlder(a: seq<CachedField>, b: seq<CachedField>) {
    |a| == |b| && forall i | 0 <= i < |a| :: FieldOlder(a[i], b[i])
  }

  predicate MetaOlder(a: Meta, b: Meta) {
    a.hasValidate == b.hasValidate && FieldsOlder(a.fields, b.fields)
  }

  predicate TagsNewer(f: FieldDecl, later: Tables, earlier: Tables) {
    && Tagged(f)
    && ((f.normalize.Some? && Newer(f.normalize.value, later.normalize, earlier.normalize))
        || (f.sanitize.Some? && Newer(f.sanitize.value, later.sanitize, earlier.sanitize)))
  }

  /** Some tag of the type names an operator registered in between. */
  predicate TypeNewer(decl: seq<FieldDecl>, later: Tables, earlier: Tables) {
    exists i :: 0 <= i < |decl| && TagsNewer(decl[i], later, earlier)
  }

  lemma {:induction false} ProcessorsAge(tags: Option<seq<string>>, later: Table, earlier: Table)
    requires Extends(later, earlier)
    ensures Older(Processors(tags, earlier), Processors(tags, later))
    ensures Processors(tags, earlier) == Processors(tags, later) <==> !(tags.Some? && Newer(tags.value, later, earlier))
  {
    if tags.Some? {
      SelectionAges(tags.value, later, earlier);
    }
  }

  lemma {:induction false} FieldsAge(decl: seq<FieldDecl>, later: Tables, earlier: Tables)
    requires TablesExtend(later, earlier)
    ensures FieldsOlder(Fields(decl, earlier), Fields(decl, later))
    ensures Fields(decl, earlier) == Fields(decl, later) <==> !TypeNewer(decl, later, earlier)
  {
    if decl != [] {
      var n := |decl| - 1;
      var front, f := decl[..n], decl[n];
      FieldsAge(front, later, earlier);
      ProcessorsAge(f.normalize, later.normalize, earlier.normalize);
      ProcessorsAge(f.sanitize, later.sanitize, earlier.sanitize);
      assert TypeNewer(decl, later, earlier) <==> TypeNewer(front, later, earlier) || TagsNewer(f, later, earlier) by {
        if i :| 0 <= i < |front| && TagsNewer(front[i], later, earlier) {
          assert TagsNewer(decl[i], later, earlier);
        }
        if i :| 0 <= i < |decl| && TagsNewer(decl[i], later, earlier) {
          assert i == n || TagsNewer(front[i], later, earlier);
        }
        if TagsNewer(f, later, earlier) {
          assert TagsNewer(decl[n], later, earlier);
        }
      }
      LastDecides(Fields(front, earlier), Fields(front, later), Fields(decl, earlier), Fields(decl, later), Tagged(f));
    }
  }

  /** Two lists that grow by one element each are equal exactly when they were and the new elements are. */
  lemma {:induction false} LastDecides(a: seq<CachedField>, b: seq<CachedField>, a': seq<CachedField>,
          b': seq<CachedField>, grown: bool)
    requires |a| == |b| && |a'| == |b'| == |a| + (if grown then 1 else 0)
    requires a'[..|a|] == a && b'[..|b|] == b
    ensures a' == b' <==> a == b && (grown ==> a'[|a|] == b'[|b|])
  {
    assert a' == a'[..|a|] + a'[|a|..] && b' == b'[..|b|] + b'[|b|..];
  }

  // Runs

  type TypeId = nat

  /** The tables and the cache. */
  datatype State = State(tables: Tables, cache: map<TypeId, Meta>)

  datatype Action = AddNormalizer(name: string, fn: Fn) | AddSanitizer(name: string, fn: Fn) | Use(ty: TypeId)

  type Types = map<TypeId, seq<FieldDecl>>

  /** A name already taken is refused; a type already cached keeps its entry; a bad type is never cached. */
  function Next(s: State, a: Action, types: Types): State {
    match a
    case AddNormalizer(name, fn) =>
      if name in s.tables.normalize then s else s.(tables := s.tables.(normalize := s.tables.normalize[name := fn]))
    case AddSanitizer(name, fn) =>
      if name in s.tables.sanitize then s else s.(tables := s.tables.(sanitize := s.tables.sanitize[name := fn]))
    case Use(ty) =>
      if ty in s.cache || ty !in types || !TypeOk(types[ty]) then s
      else s.(cache := s.cache[ty := Build(types[ty], s.tables).value])
  }

  ghost predicate IsRun(states: seq<State>, actions: seq<Action>, types: Types) {
    && |states| == |actions| + 1
    && states[0].cache == map[]
    && forall i | 0 <= i < |actions| :: states[i + 1] == Next(states[i], actions[i], types)
  }

  /** Tables and cache entries are never taken back or changed. */
  lemma {:induction false} NothingIsLost(states: seq<State>, actions: seq<Action>, types: Types, i: nat, j: nat)
    requires IsRun(states, actions, types) && i <= j < |states|
    ensures TablesExtend(states[j].tables, states[i].tables)
    ensures forall ty | ty in states[i].cache :: ty in states[j].cache && states[j].cache[ty] == states[i].cache[ty]
    decreases j
  {
    if i < j {
      NothingIsLost(states, actions, types, i, j - 1);
      assert states[j] == Next(states[j - 1], actions[j - 1], types);
    }
  }

  /** Every entry stems from one step of the run, built with the tables of that moment. */
  lemma {:induction false} FilledAt(states: seq<State>, actions: seq<Action>, types: Types, j: nat, ty: TypeId)
    returns (i: nat)
    requires IsRun(states, actions, types) && j < |states| && ty in states[j].cache
    ensures i < j && actions[i] == Use(ty) && ty !in states[i].cache && ty in types && TypeOk(types[ty])
    ensures Some(states[j].cache[ty]) == Build(types[ty], states[i].tables)
    decreases j
  {
    assert j > 0;
    assert states[j] == Next(states[j - 1], actions[j - 1], types);
    if ty in states[j - 1].cache {
      i := FilledAt(states, actions, types, j - 1, ty);
    } else {
      i := j - 1;
    }
  }

  /** In every reachable state each cached entry is older than what would be built now, and is the same unless a name
      in the type's tags was registered after the entry was made. */
  lemma {:induction false} CacheAgreement(states: seq<State>, actions: seq<Action>, types: Types, j: nat, ty: TypeId)
    returns (i: nat)
    requires IsRun(states, actions, types) && j < |states| && ty in states[j].cache
    ensures i < j && actions[i] == Use(ty) && ty !in states[i].cache
    ensures ty in types && TypeOk(types[ty])
    ensures MetaOlder(states[j].cache[ty], Build(types[ty], states[j].tables).value)
    ensures Some(states[j].cache[ty]) == Build(types[ty], states[j].tables)
       <==> !TypeNewer(types[ty], states[j].tables, states[i].tables)
  {
    i := FilledAt(states, actions, types, j, ty);
    NothingIsLost(states, actions, types, i, j);
    FieldsAge(types[ty], states[j].tables, states[i].tables);
  }

  /** The second reader of the cache, validation, is never misled by it. */
  lemma {:induction false} ValidationIsExact(states: seq<State>, actions: seq<Action>, types: Types, j: nat, ty: TypeId)
    requires IsRun(states, actions, types) && j < |states| && ty in states[j].cache
    ensures ty in types && TypeOk(types[ty]) && states[j].cache[ty].hasValidate == HasValidate(types[ty])
  {
    var i := FilledAt(states, actions, types, j, ty);
  }

  /** A type used before its custom normalizer is registered never gets it. */
  lemma {:induction false} LateRegistrationIsMissed(id: nat) returns (states: seq<State>)
    ensures |states| == 3
    ensures var decl := [FieldDecl(true, false, Some(["custom"]), None, false)];
            && IsRun(states, [Use(0), AddNormalizer("custom", Custom(id))], map[0 := decl])
            && 0 in states[2].cache
            && states[2].cache[0].fields == [CachedField(0, Some(TagProcessors([], false)), None)]
            && Fields(decl, states[2].tables) == [CachedField(0, Some(TagProcessors([Custom(id)], false)), None)]
  {
    var f := FieldDecl(true, false, Some(["custom"]), None, false);
    var types := map[0 := [f]];
    var s0 := State(Tables(map[], map[]), map[]);
    var s1 := Next(s0, Use(0), types);
    var s2 := Next(s1, AddNormalizer("custom", Custom(id)), types);
    assert ["custom"][..0] == [] && [f][..0] == [];
    assert TypeOk([f]);
    assert Selected(["custom"], map[]) == [];
    assert Selected(["custom"], s2.tables.normalize) == [Custom(id)];
    assert Fields([f], s0.tables) == [CachedField(0, Some(TagProcessors([], false)), None)];
    assert Fields([f], s2.tables) == [CachedField(0, Some(TagProcessors([Custom(id)], false)), None)];
    states := [s0, s1, s2];
    assert IsRun(states, [Use(0), AddNormalizer("custom", Custom(id))], types);
  }

  // The state in place

  class Operators {
    const types: Types
    var tables: Tables
    var cache: map<TypeId, Meta>

    constructor (types: Types)
      ensures this.types == types && Now() == State(BUILT_IN, map[])
    {
      this.types, tables, cache := types, BUILT_IN, map[];
    }

    ghost function Now(): State
      reads this
    {
      State(tables, cache)
    }

    method RegisterBodyNormalizer(name: string, fn: Option<Fn>) returns (ok: bool)
      modifies this`tables
      ensures ok <==> fn.Some? && name !in old(tables.normalize)
      ensures Now() == if fn.Some? then Next(old(Now()), AddNormalizer(name, fn.value), types) else old(Now())
    {
      if fn.None? || name in tables.normalize {
        return false;
      }
      tables := tables.(normalize := tables.normalize[name := fn.value]);
      ok := true;
    }

    method RegisterBodySanitizer(name: string, fn: Option<Fn>) returns (ok: bool)
      modifies this`tables
      ensures ok <==> fn.Some? && name !in old(tables.sanitize)
      ensures Now() == if fn.Some? then Next(old(Now()), AddSanitizer(name, fn.value), types) else old(Now())
    {
      if fn.None? || name in tables.sanitize {
        return false;
      }
      tables := tables.(sanitize := tables.sanitize[name := fn.value]);
      ok := true;
    }

    /** The cached entry of a type, made now if there is none yet. */
    method Load(ty: TypeId) returns (meta: Option<Meta>)
      requires ty in types
      modifies this`cache
      ensures Now() == Next(old(Now()), Use(ty), types)
      ensures meta == if ty in cache then Some(cache[ty]) else None
      ensures meta.None? ==> !TypeOk(types[ty])
    {
      if ty in cache {
        return Some(cache[ty]);
      }
      meta := BuildStructFields(types[ty], tables);
      if meta.Some? {
        cache := cache[ty := meta.value];
      }
    }

    /** Whether a value of the type is to be validated; by a sound cache, whether the type is usable and says so. */
    method IsValidable(ty: TypeId) returns (r: bool)
      requires ty in types
      modifies this`cache
      ensures Now() == Next(old(Now()), Use(ty), types)
      ensures r <==> ty in cache && cache[ty].hasValidate
      ensures (ty in old(cache) ==> TypeOk(types[ty]) && old(cache)[ty].hasValidate == HasValidate(types[ty]))
          ==> (r <==> TypeOk(types[ty]) && HasValidate(types[ty]))
    {
      var meta := Load(ty);
      r := meta.Some? && meta.value.hasValidate;
    }
  }
}
