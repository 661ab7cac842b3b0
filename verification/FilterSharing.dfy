/** What builders and filters share, and when calls on one builder show in another. */
module FilterSharing {
  import opened Wrappers
  import opened Lbq
  import opened Strings
  import opened Slices
  import opened WhereBuilders
  import opened FilterBuilders

  // ----- what a filter shows, nested scopes included -----

  /** The contents of projections and arrays at one moment. */
  datatype Memory = Memory(
    maps: map<FieldMap, map<string, bool>>,
    orders: map<array<Order>, seq<Order>>,
    includes: map<array<IncludeRef>, seq<IncludeRef>>)

  ghost predicate IsNow(h: Memory)
    reads h.maps.Keys, h.orders.Keys, h.includes.Keys
  {
    && (forall fields <- h.maps.Keys :: fields.m == h.maps[fields])
    && (forall a <- h.orders.Keys :: a[..] == h.orders[a])
    && (forall a <- h.includes.Keys :: a[..] == h.includes[a])
  }

  /** Arrays are remembered as long as they are. */
  ghost predicate Sized(h: Memory) {
    && (forall a <- h.orders.Keys :: |h.orders[a]| == a.Length)
    && (forall a <- h.includes.Keys :: |h.includes[a]| == a.Length)
  }

  ghost function Seen<T>(m: map<array<T>, seq<T>>, s: Slice<T>): seq<T> {
    if s.cells != null && s.cells in m && s.to <= |m[s.cells]| then m[s.cells][s.from..s.to] else []
  }

  /** What a filter itself shows. An include shows which filter it has for a scope, so that
      another one with the same contents is a difference. */
  datatype Facts = Facts(
    where: Where, fields: map<string, bool>, limit: nat, order: seq<Order>, skip: nat, includes: seq<IncludeRef>)

  ghost function FactsOf(h: Memory, f: FilterRef): Facts {
    var fields := if f.fields != null && f.fields in h.maps then h.maps[f.fields] else map[];
    Facts(f.where, fields, f.limit, Seen(h.orders, f.order), f.skip, Seen(h.includes, f.includes))
  }

  /** The memory holds what the filter itself refers to. */
  ghost predicate Remembers(h: Memory, f: FilterRef) {
    && (f.fields != null ==> f.fields in h.maps)
    && (f.order.cells != null ==> f.order.cells in h.orders)
    && (f.includes.cells != null ==> f.includes.cells in h.includes)
  }

  /** What is remembered is what is there. */
  lemma FactsAreThere(h: Memory, f: FilterRef)
    requires IsNow(h) && Remembers(h, f)
    ensures FactsOf(h, f) ==
            Facts(f.where, Entries(f.fields), f.limit, f.order.Content(), f.skip, f.includes.Content())
  {}

  /** The filter that a path of includes leads to. */
  ghost function ScopeAt(h: Memory, f: FilterRef, path: seq<nat>): Option<FilterRef>
    decreases |path|
  {
    if path == [] then Some(f)
    else
      var next := Seen(h.includes, f.includes);
      if path[0] < |next| && next[path[0]].scope.Some? then ScopeAt(h, next[path[0]].scope.value, path[1..]) else None
  }

  ghost function DeepAt(h: Memory, f: FilterRef, path: seq<nat>): Option<Facts> {
    match ScopeAt(h, f, path)
    case None => None
    case Some(scope) => Some(FactsOf(h, scope))
  }

  /** The filter shows the same in both memories, at every depth. */
  ghost predicate SameDeep(h: Memory, h': Memory, f: FilterRef) {
    forall path :: DeepAt(h', f, path) == DeepAt(h, f, path)
  }

  /** Nothing the filter reaches is different. */
  ghost predicate Undisturbed(h: Memory, h': Memory, f: FilterRef) {
    forall path :: ScopeAt(h, f, path).Some? ==>
      FactsOf(h', ScopeAt(h, f, path).value) == FactsOf(h, ScopeAt(h, f, path).value)
  }

  lemma Below(h: Memory, f: FilterRef, i: nat, path: seq<nat>)
    ensures var next := Seen(h.includes, f.includes);
            ScopeAt(h, f, [i] + path) ==
            if i < |next| && next[i].scope.Some? then ScopeAt(h, next[i].scope.value, path) else None
  {
    assert ([i] + path)[1..] == path;
  }

  lemma {:induction false} UndisturbedScopes(h: Memory, h': Memory, f: FilterRef, path: seq<nat>)
    requires Undisturbed(h, h', f)
    ensures ScopeAt(h', f, path) == ScopeAt(h, f, path)
    decreases |path|
  {
    assert ScopeAt(h, f, []) == Some(f);
    if path != [] {
      var next := Seen(h.includes, f.includes);
      if path[0] < |next| && next[path[0]].scope.Some? {
        var scope := next[path[0]].scope.value;
        forall below | ScopeAt(h, scope, below).Some?
          ensures FactsOf(h', ScopeAt(h, scope, below).value) == FactsOf(h, ScopeAt(h, scope, below).value)
        {
          Below(h, f, path[0], below);
        }
        UndisturbedScopes(h, h', scope, path[1..]);
      }
    }
  }

  lemma {:induction false} SameDeepScopes(h: Memory, h': Memory, f: FilterRef, path: seq<nat>)
    requires SameDeep(h, h', f)
    ensures ScopeAt(h', f, path) == ScopeAt(h, f, path)
    decreases |path|
  {
    assert DeepAt(h', f, []) == DeepAt(h, f, []);
    if path != [] {
      var next := Seen(h.includes, f.includes);
      if path[0] < |next| && next[path[0]].scope.Some? {
        var scope := next[path[0]].scope.value;
        forall below ensures DeepAt(h', scope, below) == DeepAt(h, scope, below) {
          Below(h, f, path[0], below);
          Below(h', f, path[0], below);
          assert DeepAt(h', f, [path[0]] + below) == DeepAt(h, f, [path[0]] + below);
        }
        SameDeepScopes(h, h', scope, path[1..]);
      }
    }
  }

  /** A filter shows the same exactly when nothing it reaches is different. */
  lemma SameDeepIff(h: Memory, h': Memory, f: FilterRef)
    ensures SameDeep(h, h', f) <==> Undisturbed(h, h', f)
  {
    if Undisturbed(h, h', f) {
      forall path ensures DeepAt(h', f, path) == DeepAt(h, f, path) {
        UndisturbedScopes(h, h', f, path);
      }
    }
    if SameDeep(h, h', f) {
      forall path | ScopeAt(h, f, path).Some?
        ensures FactsOf(h', ScopeAt(h, f, path).value) == FactsOf(h, ScopeAt(h, f, path).value)
      {
        SameDeepScopes(h, h', f, path);
        assert DeepAt(h', f, path) == DeepAt(h, f, path);
      }
    }
  }

  // ----- calls, and what they write to -----

  datatype FilterCall =
    | CallFields(m: map<string, bool>)
    | CallLimit(n: nat)
    | CallSkip(n: nat)
    | CallPage(page: nat, size: nat)
    | CallOrder(field: string, ascending: bool, spare: nat)
    | CallInclude(relation: string, scope: Option<FilterRef>, spare: nat)
    | CallWhere(expr: Where)
    | CallFailedWhere
    | CallFrom(f: FilterRef)
    | CallReset

  /** A slice a builder has from elsewhere, or one of its own. */
  datatype Held<T> = Own | Shared(s: Slice<T>)

  /** What a builder's calls write to. */
  datatype Hands = Hands(fields: Option<FieldMap?>, order: Held<Order>, includes: Held<IncludeRef>)

  const OWN := Hands(None, Own, Own)

  ghost function HandsOf(f: FilterRef): Hands { Hands(Some(f.fields), Shared(f.order), Shared(f.includes)) }

  ghost function Extend<T>(held: Held<T>): Held<T> {
    if held.Shared? && held.s.HasRoom() then Shared(held.s.(to := held.s.to + 1)) else Own
  }

  ghost function NextHands(hands: Hands, c: FilterCall): Hands {
    match c
    case CallFrom(f) => HandsOf(f)
    case CallReset => OWN
    case CallOrder(field, _, _) => if Blank(field) then hands else hands.(order := Extend(hands.order))
    case CallInclude(_, _, _) => hands.(includes := Extend(hands.includes))
    case _ => hands
  }

  ghost function HandsAfter(hands: Hands, calls: seq<FilterCall>): Hands {
    if calls == [] then hands else NextHands(HandsAfter(hands, calls[..|calls| - 1]), calls[|calls| - 1])
  }

  /** Appending x would write to this place. */
  ghost predicate Hits<T>(held: Held<T>, a: array<T>, i: nat) {
    held.Shared? && held.s.HasRoom() && held.s.cells == a && held.s.to == i
  }

  ghost function Put<T>(m: map<array<T>, seq<T>>, held: Held<T>, x: T): map<array<T>, seq<T>> {
    if held.Shared? && held.s.HasRoom() && held.s.cells in m && held.s.to < |m[held.s.cells]|
    then m[held.s.cells := m[held.s.cells][held.s.to := x]]
    else m
  }

  ghost function Written(h: Memory, hands: Hands, c: FilterCall): Memory {
    match c
    case CallFields(m) =>
      if hands.fields.Some? && hands.fields.value != null && hands.fields.value in h.maps
      then h.(maps := h.maps[hands.fields.value := h.maps[hands.fields.value] + m])
      else h
    case CallOrder(field, ascending, _) =>
      if Blank(field) then h else h.(orders := Put(h.orders, hands.order, Directed(field, ascending)))
    case CallInclude(relation, scope, _) =>
      h.(includes := Put(h.includes, hands.includes, IncludeRef(relation, scope)))
    case _ => h
  }

  ghost function After(h: Memory, hands: Hands, calls: seq<FilterCall>): Memory {
    if calls == [] then h
    else
      var front := calls[..|calls| - 1];
      Written(After(h, hands, front), HandsAfter(hands, front), calls[|calls| - 1])
  }

  // ----- place by place -----

  /** What the calls write into a projection. */
  ghost function WrittenTo(hands: Hands, calls: seq<FilterCall>, target: FieldMap): map<string, bool> {
    if calls == [] then map[]
    else
      var (front, last) := (calls[..|calls| - 1], calls[|calls| - 1]);
      WrittenTo(hands, front, target)
      + if last.CallFields? && HandsAfter(hands, front).fields == Some(target) then last.m else map[]
  }

  /** The last order the calls put into a place of an array. */
  ghost function LastOrder(hands: Hands, calls: seq<FilterCall>, a: array<Order>, i: nat): Option<Order> {
    if calls == [] then None
    else
      var (front, last) := (calls[..|calls| - 1], calls[|calls| - 1]);
      if last.CallOrder? && !Blank(last.field) && Hits(HandsAfter(hands, front).order, a, i)
      then Some(Directed(last.field, last.ascending))
      else LastOrder(hands, front, a, i)
  }

  ghost function LastInclude(hands: Hands, calls: seq<FilterCall>, a: array<IncludeRef>, i: nat): Option<IncludeRef> {
    if calls == [] then None
    else
      var (front, last) := (calls[..|calls| - 1], calls[|calls| - 1]);
      if last.CallInclude? && Hits(HandsAfter(hands, front).includes, a, i)
      then Some(IncludeRef(last.relation, last.scope))
      else LastInclude(hands, front, a, i)
  }

  ghost function Or<T>(last: Option<T>, x: T): T { if last.Some? then last.value else x }

  lemma MapWritten(h: Memory, hands: Hands, c: FilterCall)
    ensures Written(h, hands, c).maps.Keys == h.maps.Keys
    ensures forall fields <- h.maps.Keys ::
              Written(h, hands, c).maps[fields] ==
              h.maps[fields] + if c.CallFields? && hands.fields == Some(fields) then c.m else map[]
  {}

  lemma MoreWritten(hands: Hands, calls: seq<FilterCall>, fields: FieldMap, start: map<string, bool>)
    requires calls != []
    ensures var (front, last) := (calls[..|calls| - 1], calls[|calls| - 1]);
            start + WrittenTo(hands, calls, fields) ==
            (start + WrittenTo(hands, front, fields))
            + if last.CallFields? && HandsAfter(hands, front).fields == Some(fields) then last.m else map[]
  {}

  lemma {:induction false} MapsAfter(h: Memory, hands: Hands, calls: seq<FilterCall>)
    ensures After(h, hands, calls).maps.Keys == h.maps.Keys
    ensures forall fields <- h.maps.Keys ::
              After(h, hands, calls).maps[fields] == h.maps[fields] + WrittenTo(hands, calls, fields)
  {
    if calls != [] {
      var (front, last) := (calls[..|calls| - 1], calls[|calls| - 1]);
      MapsAfter(h, hands, front);
      MapWritten(After(h, hands, front), HandsAfter(hands, front), last);
      forall fields <- h.maps.Keys
        ensures After(h, hands, calls).maps[fields] == h.maps[fields] + WrittenTo(hands, calls, fields)
      {
        MoreWritten(hands, calls, fields, h.maps[fields]);
      }
    }
  }

  lemma {:induction false} OrdersAfter(h: Memory, hands: Hands, calls: seq<FilterCall>)
    requires Sized(h)
    ensures After(h, hands, calls).orders.Keys == h.orders.Keys
    ensures forall a <- h.orders.Keys :: |After(h, hands, calls).orders[a]| == a.Length
    ensures forall a <- h.orders.Keys, i | 0 <= i < a.Length ::
              After(h, hands, calls).orders[a][i] == Or(LastOrder(hands, calls, a, i), h.orders[a][i])
  {
    if calls != [] {
      OrdersAfter(h, hands, calls[..|calls| - 1]);
    }
  }

  lemma {:induction false} IncludesAfter(h: Memory, hands: Hands, calls: seq<FilterCall>)
    requires Sized(h)
    ensures After(h, hands, calls).includes.Keys == h.includes.Keys
    ensures forall a <- h.includes.Keys :: |After(h, hands, calls).includes[a]| == a.Length
    ensures forall a <- h.includes.Keys, i | 0 <= i < a.Length ::
              After(h, hands, calls).includes[a][i] == Or(LastInclude(hands, calls, a, i), h.includes[a][i])
  {
    if calls != [] {
      IncludesAfter(h, hands, calls[..|calls| - 1]);
    }
  }

  // ----- calls that leave a filter as it is -----

  /** The entries of `more` that are not in `m`. */
  function Adds(m: map<string, bool>, more: map<string, bool>): set<string> {
    set k | k in more && !(k in m && m[k] == more[k])
  }

  /** Into what the filter refers to, the calls write only what is there already. */
  ghost predicate HarmlessAt(h: Memory, f: FilterRef, hands: Hands, calls: seq<FilterCall>)
    requires Sized(h)
  {
    && (f.fields != null && f.fields in h.maps ==>
          Adds(h.maps[f.fields], WrittenTo(hands, calls, f.fields)) == {})
    && (f.order.cells != null && f.order.cells in h.orders ==>
          forall i | f.order.from <= i < f.order.to ::
            LastOrder(hands, calls, f.order.cells, i) in {None, Some(h.orders[f.order.cells][i])})
    && (f.includes.cells != null && f.includes.cells in h.includes ==>
          forall i | f.includes.from <= i < f.includes.to ::
            LastInclude(hands, calls, f.includes.cells, i) in {None, Some(h.includes[f.includes.cells][i])})
  }

  /** The same for all that the filter reaches, nested scopes included. */
  ghost predicate Harmless(h: Memory, f: FilterRef, hands: Hands, calls: seq<FilterCall>)
    requires Sized(h)
  {
    forall path :: ScopeAt(h, f, path).Some? ==> HarmlessAt(h, ScopeAt(h, f, path).value, hands, calls)
  }

  lemma AddsNothingIff(m: map<string, bool>, more: map<string, bool>)
    ensures m + more == m <==> Adds(m, more) == {}
  {
    if m + more == m {
      forall k | k in more ensures k !in Adds(m, more) {
        assert k in m + more;
      }
    }
    if Adds(m, more) == {} {
      forall k | k in more ensures k in m && m[k] == more[k] {
        assert k !in Adds(m, more);
      }
    }
  }

  /** A slice shows the same exactly when the elements it sees are the same. */
  lemma SeenSameIff<T>(m: map<array<T>, seq<T>>, m': map<array<T>, seq<T>>, s: Slice<T>)
    requires m'.Keys == m.Keys
    requires forall a <- m.Keys :: |m[a]| == |m'[a]| == a.Length
    ensures Seen(m', s) == Seen(m, s) <==>
            (s.cells != null && s.cells in m ==> forall i | s.from <= i < s.to :: m'[s.cells][i] == m[s.cells][i])
  {
    if s.cells != null && s.cells in m && Seen(m', s) == Seen(m, s) {
      forall i | s.from <= i < s.to ensures m'[s.cells][i] == m[s.cells][i] {
        assert Seen(m', s)[i - s.from] == Seen(m, s)[i - s.from];
      }
    }
  }

  lemma OrderHarmlessIff(h: Memory, f: FilterRef, hands: Hands, calls: seq<FilterCall>)
    requires Sized(h)
    ensures Seen(After(h, hands, calls).orders, f.order) == Seen(h.orders, f.order) <==>
            (f.order.cells != null && f.order.cells in h.orders ==>
               forall i | f.order.from <= i < f.order.to ::
                 LastOrder(hands, calls, f.order.cells, i) in {None, Some(h.orders[f.order.cells][i])})
  {
    OrdersAfter(h, hands, calls);
    SeenSameIff(h.orders, After(h, hands, calls).orders, f.order);
  }

  lemma IncludeHarmlessIff(h: Memory, f: FilterRef, hands: Hands, calls: seq<FilterCall>)
    requires Sized(h)
    ensures Seen(After(h, hands, calls).includes, f.includes) == Seen(h.includes, f.includes) <==>
            (f.includes.cells != null && f.includes.cells in h.includes ==>
               forall i | f.includes.from <= i < f.includes.to ::
                 LastInclude(hands, calls, f.includes.cells, i) in {None, Some(h.includes[f.includes.cells][i])})
  {
    IncludesAfter(h, hands, calls);
    SeenSameIff(h.includes, After(h, hands, calls).includes, f.includes);
  }

  lemma HarmlessAtIff(h: Memory, f: FilterRef, hands: Hands, calls: seq<FilterCall>)
    requires Sized(h)
    ensures HarmlessAt(h, f, hands, calls) <==> FactsOf(After(h, hands, calls), f) == FactsOf(h, f)
  {
    MapsAfter(h, hands, calls);
    OrderHarmlessIff(h, f, hands, calls);
    IncludeHarmlessIff(h, f, hands, calls);
    if f.fields != null && f.fields in h.maps {
      AddsNothingIff(h.maps[f.fields], WrittenTo(hands, calls, f.fields));
    }
  }

  /** A filter shows the same after the calls, at every depth, exactly when they write into
      what it reaches only what is there already. */
  lemma HarmlessIff(h: Memory, f: FilterRef, hands: Hands, calls: seq<FilterCall>)
    requires Sized(h)
    ensures SameDeep(h, After(h, hands, calls), f) <==> Harmless(h, f, hands, calls)
  {
    SameDeepIff(h, After(h, hands, calls), f);
    forall path | ScopeAt(h, f, path).Some?
      ensures HarmlessAt(h, ScopeAt(h, f, path).value, hands, calls) <==>
              FactsOf(After(h, hands, calls), ScopeAt(h, f, path).value) == FactsOf(h, ScopeAt(h, f, path).value)
    {
      HarmlessAtIff(h, ScopeAt(h, f, path).value, hands, calls);
    }
  }

  // ----- making the calls -----

  /** The builder and what it writes to. */
  function Reach(b: FilterBuilder): set<object?>
    reads b
  {
    {b, b.fields, b.order.cells, b.includes.cells}
  }

  /** What a filter refers to. */
  function Parts(f: FilterRef): set<object?> { {f.fields, f.order.cells, f.includes.cells} }

  function BroughtIn(c: FilterCall): set<object?> { if c.CallFrom? then Parts(c.f) else {} }

  /** What filters among the calls bring along. */
  function Brought(calls: seq<FilterCall>): set<object?> {
    if calls == [] then {} else Brought(calls[..|calls| - 1]) + BroughtIn(calls[|calls| - 1])
  }

  lemma {:induction false} BroughtBy(calls: seq<FilterCall>, i: nat)
    requires i < |calls|
    ensures BroughtIn(calls[i]) <= Brought(calls)
  {
    if i < |calls| - 1 { BroughtBy(calls[..|calls| - 1], i); }
  }

  lemma {:induction false} NoBuilderBrought(calls: seq<FilterCall>, b: FilterBuilder)
    ensures b !in Brought(calls)
  {
    if calls != [] { NoBuilderBrought(calls[..|calls| - 1], b); }
  }

  /** The builder writes only to these objects and to new ones. */
  twostate predicate WritesWithin(new b: FilterBuilder, new objects: set<object?>)
    reads b
  {
    forall o <- Reach(b) :: o == null || o in objects || fresh(o)
  }

  /** The builder writes to what `hands` says, and to places of its own that are not
      remembered. */
  ghost predicate Carries(b: FilterBuilder, hands: Hands, h: Memory)
    reads b
  {
    && (match hands.fields
        case None => b.fields != null && b.fields !in h.maps
        case Some(fields) => b.fields == fields)
    && CarriesSlice(b.order, hands.order, h.orders) && CarriesSlice(b.includes, hands.includes, h.includes)
  }

  ghost predicate CarriesSlice<T>(s: Slice<T>, held: Held<T>, m: map<array<T>, seq<T>>) {
    match held
    case Own => s.cells == null || s.cells !in m
    case Shared(from) => s == from
  }

  /** A nil projection cannot be written to. */
  predicate Panics(fields: FieldMap?, c: FilterCall) { c.CallFields? && c.m != map[] && fields == null }

  method Apply(b: FilterBuilder, c: FilterCall, ghost h: Memory, ghost hands: Hands) returns (panics: bool)
    requires IsNow(h) && Carries(b, hands, h)
    modifies Reach(b)
    ensures panics <==> Panics(old(b.fields), c)
    ensures panics ==> IsNow(h)
    ensures !panics ==> IsNow(Written(h, hands, c)) && Carries(b, NextHands(hands, c), Written(h, hands, c))
    ensures !c.CallReset? && old(b.err).Some? ==> b.err.Some?
    ensures WritesWithin(b, old(Reach(b)) + BroughtIn(c))
  {
    panics := false;
    match c
    case CallFields(m) => panics := ApplyFields(b, m, h, hands);
    case CallOrder(field, ascending, spare) => ApplyOrder(b, field, ascending, spare, h, hands);
    case CallInclude(relation, scope, spare) => ApplyInclude(b, relation, scope, spare, h, hands);
    case _ => ApplyOther(b, c, h, hands);
  }

  method ApplyFields(b: FilterBuilder, m: map<string, bool>, ghost h: Memory, ghost hands: Hands)
    returns (panics: bool)
    requires IsNow(h) && Carries(b, hands, h)
    modifies b.fields
    ensures panics <==> m != map[] && b.fields == null
    ensures panics ==> IsNow(h)
    ensures var w := Written(h, hands, CallFields(m)); !panics ==> IsNow(w) && Carries(b, hands, w)
  {
    panics := b.Fields(m);
  }

  method ApplyOrder(b: FilterBuilder, field: string, ascending: bool, spare: nat, ghost h: Memory, ghost hands: Hands)
    requires IsNow(h) && Carries(b, hands, h)
    modifies b`order, b`err, b.order.cells
    ensures var (c, w) := (CallOrder(field, ascending, spare), Written(h, hands, CallOrder(field, ascending, spare)));
            IsNow(w) && Carries(b, NextHands(hands, c), w)
    ensures old(b.err).Some? ==> b.err.Some?
    ensures b.order.cells == old(b.order.cells) || fresh(b.order.cells)
  {
    b.OrderBy(field, ascending, spare);
  }

  method ApplyInclude(b: FilterBuilder, relation: string, scope: Option<FilterRef>, spare: nat, ghost h: Memory,
          ghost hands: Hands)
    requires IsNow(h) && Carries(b, hands, h)
    modifies b`includes, b.includes.cells
    ensures var (c, w) := (CallInclude(relation, scope, spare), Written(h, hands, CallInclude(relation, scope, spare)));
            IsNow(w) && Carries(b, NextHands(hands, c), w)
    ensures b.includes.cells == old(b.includes.cells) || fresh(b.includes.cells)
  {
    b.AddInclude(relation, scope, spare);
  }

  method ApplyOther(b: FilterBuilder, c: FilterCall, ghost h: Memory, ghost hands: Hands)
    requires !c.CallFields? && !c.CallOrder? && !c.CallInclude?
    requires IsNow(h) && Carries(b, hands, h)
    modifies b
    ensures IsNow(h) && Carries(b, NextHands(hands, c), h)
    ensures !c.CallReset? && old(b.err).Some? ==> b.err.Some?
    ensures WritesWithin(b, old(Reach(b)) + BroughtIn(c))
  {
    match c
    case CallLimit(n) => b.Limit(n);
    case CallSkip(n) => b.Skip(n);
    case CallPage(page, size) => b.Page(page, size);
    case CallWhere(w) => AddWhere(b, w);
    case CallFailedWhere => b.WithWhere(null);
    case CallFrom(f) => b.FromLBFilter(Some(f));
    case CallReset => b.Reset();
  }

  method AddWhere(b: FilterBuilder, w: Where)
    modifies b`where, b`err
    ensures old(b.err).Some? ==> b.err.Some?
    ensures w.m != map[] ==> b.Value() == old(b.Value()).(where := old(b.where) + [w])
  {
    var builder := new WhereBuilder();
    builder.Raw(w);
    b.WithWhere(builder);
  }

  // ----- any sequence of calls -----

  /** The call at k panics. */
  ghost predicate PanicsAt(hands: Hands, calls: seq<FilterCall>, k: nat)
    requires k < |calls|
  {
    calls[k].CallFields? && calls[k].m != map[] && HandsAfter(hands, calls[..k]).fields == Some(null)
  }

  ghost predicate NoPanics(hands: Hands, calls: seq<FilterCall>, n: nat)
    requires n <= |calls|
  {
    forall k | 0 <= k < n :: !PanicsAt(hands, calls, k)
  }

  /** Calls up to the first that panics. */
  ghost predicate RunsTo(hands: Hands, calls: seq<FilterCall>, ran: nat) {
    ran <= |calls| && (ran < |calls| ==> PanicsAt(hands, calls, ran)) && NoPanics(hands, calls, ran)
  }

  /** One more call of a sequence. */
  method ApplyNext(b: FilterBuilder, calls: seq<FilterCall>, k: nat, ghost h: Memory, ghost hands: Hands)
    returns (panics: bool)
    requires k < |calls| && IsNow(After(h, hands, calls[..k]))
    requires Carries(b, HandsAfter(hands, calls[..k]), After(h, hands, calls[..k]))
    modifies Reach(b)
    ensures panics <==> PanicsAt(hands, calls, k)
    ensures panics ==> IsNow(After(h, hands, calls[..k]))
    ensures !panics ==>
              && IsNow(After(h, hands, calls[..k + 1]))
              && Carries(b, HandsAfter(hands, calls[..k + 1]), After(h, hands, calls[..k + 1]))
    ensures !calls[k].CallReset? && old(b.err).Some? ==> b.err.Some?
    ensures WritesWithin(b, old(Reach(b)) + Brought(calls))
  {
    assert calls[..k + 1][..k] == calls[..k] && calls[..k + 1][k] == calls[k];
    BroughtBy(calls, k);
    panics := Apply(b, calls[k], After(h, hands, calls[..k]), HandsAfter(hands, calls[..k]));
  }

  /** Makes the calls until one panics; `ran` of them are made. */
  method RunCalls(b: FilterBuilder, calls: seq<FilterCall>, ghost h: Memory, ghost hands: Hands) returns (ran: nat)
    requires IsNow(h) && Carries(b, hands, h)
    modifies Reach(b), Brought(calls)
    ensures RunsTo(hands, calls, ran)
    ensures IsNow(After(h, hands, calls[..ran]))
  {
    ghost var objects := Reach(b) + Brought(calls);
    ran := 0;
    while ran < |calls|
      invariant ran <= |calls| && NoPanics(hands, calls, ran)
      invariant IsNow(After(h, hands, calls[..ran]))
      invariant Carries(b, HandsAfter(hands, calls[..ran]), After(h, hands, calls[..ran]))
      invariant WritesWithin(b, objects)
    {
      var panics := ApplyNext(b, calls, ran, h, hands);
      if panics {
        return;
      }
      ran := ran + 1;
    }
  }

  /** A recorded error makes every later Build fail, until a Reset. */
  method ErrorsStick(b: FilterBuilder, calls: seq<FilterCall>) returns (panicked: bool, r: BuildResult)
    requires b.err.Some? && CallReset !in calls
    modifies Reach(b), Brought(calls)
    ensures !panicked ==> r.Refused?
  {
    panicked := false;
    ghost var (nothing, hands) := (Memory(map[], map[], map[]), HandsOf(b.AsFilter()));
    for i := 0 to |calls|
      invariant b.err.Some? && Carries(b, hands, nothing)
      invariant WritesWithin(b, old(Reach(b)) + Brought(calls))
    {
      BroughtBy(calls, i);
      panicked := Apply(b, calls[i], nothing, hands);
      if panicked {
        break;
      }
      hands := NextHands(hands, calls[i]);
    }
    r := b.Build();
  }

  /** Calls on one builder leave what another one builds as it is, at every depth, exactly
      when they write into what that one reaches only what is there already. */
  method OthersStayIff(b: FilterBuilder, other: FilterBuilder, calls: seq<FilterCall>, ghost h: Memory)
    returns (ran: nat)
    requires b != other && IsNow(h)
    modifies Reach(b), Brought(calls)
    ensures RunsTo(HandsOf(old(b.AsFilter())), calls, ran) && unchanged(other)
    ensures var (hands, made) := (HandsOf(old(b.AsFilter())), calls[..ran]);
            && IsNow(After(h, hands, made))
            && (SameDeep(h, After(h, hands, made), other.AsFilter()) <==> Harmless(h, other.AsFilter(), hands, made))
  {
    ghost var hands := HandsOf(b.AsFilter());
    NoBuilderBrought(calls, other);
    ran := RunCalls(b, calls, h, hands);
    HarmlessIff(h, other.AsFilter(), hands, calls[..ran]);
  }

  /** A clone writes to nothing that was there before. */
  method CloneApart(source: FilterBuilder, ghost h: Memory) returns (clone: FilterBuilder)
    ensures fresh(clone) && clone.Value() == source.Value()
    ensures Carries(clone, OWN, h) && forall o <- Reach(clone) :: o == null || fresh(o)
  {
    clone := source.Clone();
  }

  /** The same for a clone, which starts with parts of its own. */
  method CloneIsIndependent(source: FilterBuilder, calls: seq<FilterCall>, ghost h: Memory)
    returns (clone: FilterBuilder, ran: nat)
    requires IsNow(h)
    modifies Brought(calls)
    ensures fresh(clone) && (calls == [] ==> clone.Value() == source.Value())
    ensures RunsTo(OWN, calls, ran) && unchanged(source)
    ensures IsNow(After(h, OWN, calls[..ran]))
    ensures SameDeep(h, After(h, OWN, calls[..ran]), source.AsFilter()) <==>
            Harmless(h, source.AsFilter(), OWN, calls[..ran])
  {
    ghost var f := source.AsFilter();
    NoBuilderBrought(calls, source);
    clone := CloneApart(source, h);
    ran := 0;
    if calls != [] {
      ran := RunCalls(clone, calls, h, OWN);
    }
    HarmlessIff(h, f, OWN, calls[..ran]);
  }

  /** So harmless calls leave the source building what it built. */
  method CloneKeepsBuild(source: FilterBuilder, calls: seq<FilterCall>, ghost h: Memory)
    returns (clone: FilterBuilder, ran: nat)
    requires IsNow(h) && Remembers(h, source.AsFilter())
    modifies Brought(calls)
    ensures RunsTo(OWN, calls, ran)
    ensures Harmless(h, source.AsFilter(), OWN, calls[..ran]) ==>
              source.Value() == old(source.Value()) && source.BuildOutcome() == old(source.BuildOutcome())
  {
    ghost var f := source.AsFilter();
    FactsAreThere(h, f);
    clone, ran := CloneIsIndependent(source, calls, h);
    if Harmless(h, f, OWN, calls[..ran]) { TopStays(h, f, OWN, calls[..ran]); }
  }

  lemma TopStays(h: Memory, f: FilterRef, hands: Hands, calls: seq<FilterCall>)
    requires Sized(h) && Remembers(h, f) && Harmless(h, f, hands, calls) && IsNow(After(h, hands, calls))
    ensures FactsOf(h, f) ==
            Facts(f.where, Entries(f.fields), f.limit, f.order.Content(), f.skip, f.includes.Content())
  {
    MapsAfter(h, hands, calls);
    OrdersAfter(h, hands, calls);
    IncludesAfter(h, hands, calls);
    FactsAreThere(After(h, hands, calls), f);
    assert ScopeAt(h, f, []) == Some(f);
    HarmlessAtIff(h, f, hands, calls);
  }

  /** In particular nothing changes when the filters among the calls refer to nothing the
      source reaches. */
  lemma ApartIsHarmless(h: Memory, f: FilterRef, calls: seq<FilterCall>)
    requires Sized(h)
    requires forall path :: ScopeAt(h, f, path).Some? ==> Apart(ScopeAt(h, f, path).value, calls)
    ensures Harmless(h, f, OWN, calls)
  {
    forall path | ScopeAt(h, f, path).Some? ensures HarmlessAt(h, ScopeAt(h, f, path).value, OWN, calls) {
      NothingHit(h, ScopeAt(h, f, path).value, calls);
    }
  }

  ghost predicate Apart(f: FilterRef, calls: seq<FilterCall>) {
    forall o <- Parts(f) :: o == null || o !in Brought(calls)
  }

  lemma NothingHit(h: Memory, f: FilterRef, calls: seq<FilterCall>)
    requires Sized(h) && Apart(f, calls)
    ensures HarmlessAt(h, f, OWN, calls)
  {
    if f.fields != null { NothingWritten(f.fields, calls); }
    if f.order.cells != null {
      forall i: nat ensures LastOrder(OWN, calls, f.order.cells, i).None? { NoOrderWritten(f.order.cells, calls, i); }
    }
    if f.includes.cells != null {
      forall i: nat ensures LastInclude(OWN, calls, f.includes.cells, i).None? {
        NoIncludeWritten(f.includes.cells, calls, i);
      }
    }
  }

  lemma {:induction false} NothingWritten(fields: FieldMap, calls: seq<FilterCall>)
    requires fields !in Brought(calls)
    ensures WrittenTo(OWN, calls, fields) == map[] && HandsAfter(OWN, calls).fields != Some(fields)
  {
    if calls != [] { NothingWritten(fields, calls[..|calls| - 1]); }
  }

  lemma {:induction false} NoOrderWritten(a: array<Order>, calls: seq<FilterCall>, i: nat)
    requires a !in Brought(calls)
    ensures LastOrder(OWN, calls, a, i).None?
    ensures HandsAfter(OWN, calls).order.Shared? ==> HandsAfter(OWN, calls).order.s.cells != a
  {
    if calls != [] { NoOrderWritten(a, calls[..|calls| - 1], i); }
  }

  lemma {:induction false} NoIncludeWritten(a: array<IncludeRef>, calls: seq<FilterCall>, i: nat)
    requires a !in Brought(calls)
    ensures LastInclude(OWN, calls, a, i).None?
    ensures HandsAfter(OWN, calls).includes.Shared? ==> HandsAfter(OWN, calls).includes.s.cells != a
  {
    if calls != [] { NoIncludeWritten(a, calls[..|calls| - 1], i); }
  }

  // ----- the ways it goes wrong -----

  /** A clone that takes a filter over writes into the filter's projection. */
  method CloneTakesOver(source: FilterBuilder, f: FilterRef, name: string) returns (clone: FilterBuilder)
    requires f.fields != null
    modifies f.fields
    ensures fresh(clone) && f.fields.m == old(f.fields.m)[name := true]
  {
    clone := source.Clone();
    clone.FromLBFilter(Some(f));
    var panics := clone.Fields(map[name := true]);
    assert f.fields.m == old(f.fields.m) + map[name := true];
  }

  /** What Build returns carries the source's own projection. */
  method CloneWritesThroughBuild(source: FilterBuilder, name: string) returns (clone: FilterBuilder)
    requires source.fields != null && source.BuildOutcome().Filtered?
    modifies source.fields
    ensures source.Value() == old(source.Value()).(fields := old(source.fields.m)[name := true])
  {
    var built := source.Build();
    clone := CloneTakesOver(source, built.f, name);
  }

  /** A clone has the same scopes as its source. */
  method CloneWritesThroughScope(source: FilterBuilder, relation: string, scope: FilterRef, name: string, spare: nat)
    returns (clone: FilterBuilder)
    requires scope.fields != null
    modifies source, source.includes.cells, scope.fields
    ensures source.includes.Content() == old(source.includes.Content()) + [IncludeRef(relation, Some(scope))]
    ensures scope.fields.m == old(scope.fields.m)[name := true]
  {
    source.AddInclude(relation, Some(scope), spare);
    clone := CloneTakesOver(source, scope, name);
  }

  /** A filter built while the orders had room, loaded into a clone and ordered there: the
      clone's order takes the place of the one the source has got since. */
  method CloneOverwritesOrder(source: FilterBuilder, field: string, other: string, spare: nat)
    returns (clone: FilterBuilder)
    requires source.order.HasRoom() && source.BuildOutcome().Filtered? && !Blank(field) && !Blank(other)
    modifies source, source.order.cells
    ensures source.Value() ==
            old(source.Value()).(order := old(source.order.Content()) + [Directed(other, true)])
  {
    var built := source.Build();
    source.OrderBy(field, true, spare);
    clone := source.Clone();
    clone.FromLBFilter(Some(built.f));
    clone.OrderBy(other, true, spare);
  }

  /** And so with includes. */
  method CloneOverwritesInclude(source: FilterBuilder, relation: string, other: string, spare: nat)
    returns (clone: FilterBuilder)
    requires source.includes.HasRoom() && source.BuildOutcome().Filtered?
    modifies source, source.includes.cells
    ensures source.Value() ==
            old(source.Value()).(includes := old(source.includes.Content()) + [IncludeRef(other, None)])
  {
    var built := source.Build();
    source.AddInclude(relation, None, spare);
    clone := source.Clone();
    clone.FromLBFilter(Some(built.f));
    clone.AddInclude(other, None, spare);
  }

  /** Three orders leave room for a fourth where arrays grow by doubling. */
  method ThreeOrdersLeaveRoom() returns (source: FilterBuilder)
    ensures fresh(source) && source.order.HasRoom() && |source.order.Content()| == 3
    ensures source.BuildOutcome().Filtered?
  {
    source := new FilterBuilder();
    assert !IsSpace("a"[0]) && !IsSpace("b"[0]) && !IsSpace("c"[0]);
    source.OrderBy("a", true, 0);
    source.OrderBy("b", true, 0);
    source.OrderBy("c", true, 1);
  }

  /** A builder made from a filter writes through to the filter's own projection. */
  method FromLBFilterShares(f: FilterRef, more: map<string, bool>)
    requires f.fields != null
    modifies f.fields
    ensures f.fields.m == old(f.fields.m) + more
  {
    var b := new FilterBuilder();
    b.FromLBFilter(Some(f));
    var panics := b.Fields(more);
  }
}
