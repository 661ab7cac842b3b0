/** Assembling a whole filter: conditions, projection, paging, order and includes.

    A projection is a map that is shared by reference, orders and includes are slices whose
    arrays are shared, and so are the filters that includes have for scopes. Conditions,
    limits and the parts of a filter itself are values: nothing here writes to what is
    shared of them. */
module FilterBuilders {
  import opened Wrappers
  import opened Slices
  import opened Lbq
  import opened WhereBuilders

  const WHERE_EMPTY := "FILTER_WHERE_EMPTY"
  const CANNOT_MIX := "FILTER_CANNOT_MIX_INCLUSION_EXCLUSION"
  const FIELD_CONFLICT := "field projection conflict"

  class FieldMap {
    var m: map<string, bool>

    constructor (m: map<string, bool>)
      ensures this.m == m
    {
      this.m := m;
    }
  }

  /** What Build returns and FromLBFilter takes: a filter with its projection, nil
      included, and its slices. */
  datatype FilterRef = FilterRef(
    where: Where, fields: FieldMap?, limit: nat, order: Slice<Order>, skip: nat, includes: Slice<IncludeRef>)

  datatype IncludeRef = IncludeRef(relation: string, scope: Option<FilterRef>)

  datatype BuildResult = Filtered(f: FilterRef) | Refused(err: string)

  datatype MergeConfig = MergeConfig(or: bool, allowFieldConflicts: bool, maxLimit: Option<nat>)

  const DEFAULT_MERGE := MergeConfig(false, false, None)

  function Entries(fields: FieldMap?): map<string, bool>
    reads fields
  {
    if fields == null then map[] else fields.m
  }

  /** Inclusions and exclusions do not mix, except that _id may go either way. */
  predicate ValidProjection(m: map<string, bool>) {
    !((exists k <- m.Keys :: k != "_id" && m[k]) && (exists k <- m.Keys :: k != "_id" && !m[k]))
  }

  function OrZero(n: Option<nat>): nat { if n.Some? then n.value else 0 }

  // ----- merging -----

  function MergedWhere(a: seq<Where>, b: seq<Where>, or: bool): seq<Where> {
    if b == [] then a
    else if a == [] then b
    else
      var pair := Group([Conjunction(a), Conjunction(b)]);
      [Where(map[(if or then Or else And) := pair])]
  }

  predicate Conflict(a: map<string, bool>, b: map<string, bool>) {
    exists k <- b.Keys :: k in a && a[k] != b[k]
  }

  /** The merged projection and the error it causes. */
  function MergedFields(a: map<string, bool>, b: map<string, bool>, allowConflicts: bool): (map<string, bool>,
          Option<string>) {
    if b == map[] then (a, None)
    else if a != map[] && !allowConflicts && Conflict(a, b) then (a, Some(FIELD_CONFLICT))
    else (a + b, if ValidProjection(a + b) then None else Some(CANNOT_MIX))
  }

  /** A limit taken over from the other builder is capped. */
  function MergedLimit(a: Option<nat>, b: Option<nat>, cap: Option<nat>): Option<nat> {
    if b.None? then a
    else if cap.Some? && b.value > cap.value then cap
    else b
  }

  /** A builder's state with the projection and the slices looked through. */
  datatype Contents = Contents(
    where: seq<Where>, fields: map<string, bool>, limit: Option<nat>, skip: Option<nat>,
    order: seq<Order>, includes: seq<IncludeRef>, err: Option<string>)

  const NOTHING := Contents([], map[], None, None, [], [], None)

  /** A field error stops the merge before limit, skip, order and includes. */
  function Merged(a: Contents, b: Contents, config: MergeConfig): Contents {
    if a.err.Some? then NOTHING.(err := a.err)
    else if b.err.Some? then NOTHING.(err := b.err)
    else
      var (fields, err) := MergedFields(a.fields, b.fields, config.allowFieldConflicts);
      var start := a.(where := MergedWhere(a.where, b.where, config.or), fields := fields, err := err);
      if err.Some? then start
      else
        start.(limit := MergedLimit(a.limit, b.limit, config.maxLimit),
               skip := if b.skip.Some? then b.skip else a.skip,
               order := if b.order != [] then b.order else a.order,
               includes := a.includes + b.includes)
  }

  // ----- the builder -----

  function Directed(field: string, ascending: bool): Order { Order(field, if ascending then "ASC" else "DESC") }

  class FilterBuilder {
    var where: seq<Where>
    var fields: FieldMap?
    var limit: Option<nat>
    var skip: Option<nat>
    var order: Slice<Order>
    var includes: Slice<IncludeRef>
    var err: Option<string>

    function Value(): Contents
      reads this, fields, order.cells, includes.cells
    {
      Contents(where, Entries(fields), limit, skip, order.Content(), includes.Content(), err)
    }

    constructor ()
      ensures Value() == NOTHING && fields != null && fresh(fields)
      ensures order == Nil() && includes == Nil()
    {
      where, limit, skip, order, includes, err := [], None, None, Nil(), Nil(), None;
      fields := new FieldMap(map[]);
    }

    /** Writing to a nil map panics. */
    method Fields(more: map<string, bool>) returns (panics: bool)
      modifies fields
      ensures panics <==> fields == null && more != map[]
      ensures !panics ==> Value() == old(Value()).(fields := old(Value()).fields + more)
    {
      if fields == null {
        return more != map[];
      }
      fields.m := fields.m + more;
      panics := false;
    }

    method Limit(limit: nat)
      modifies this`limit
      ensures Value() == old(Value()).(limit := Some(limit))
    {
      this.limit := Some(limit);
    }

    method Skip(skip: nat)
      modifies this`skip
      ensures Value() == old(Value()).(skip := Some(skip))
    {
      this.skip := Some(skip);
    }

    method Page(page: nat, size: nat)
      modifies this`limit, this`skip
      ensures Value() == if page > 0 && size > 0
                         then old(Value()).(skip := Some((page - 1) * size), limit := Some(size)) else old(Value())
    {
      if page > 0 && size > 0 {
        Skip((page - 1) * size);
        Limit(size);
      }
    }

    method OrderBy(field: string, ascending: bool, spare: nat)
      modifies this`order, this`err, order.cells
      ensures Value() ==
              if Blank(field) then old(Value()).(err := Some(FIELD_EMPTY))
              else old(Value()).(order := old(order.Content()) + [Directed(field, ascending)])
      ensures if Blank(field) then order == old(order) && Kept(old(order))
              else Extended(old(order), Directed(field, ascending), order)
      ensures !Blank(field) && !old(order).HasRoom() ==> order.end == order.to + spare
    {
      if Blank(field) {
        err := Some(FIELD_EMPTY);
        return;
      }
      order := Append(order, Directed(field, ascending), spare);
    }

    method AddInclude(relation: string, scope: Option<FilterRef>, spare: nat)
      modifies this`includes, includes.cells
      ensures Value() == old(Value()).(includes := old(includes.Content()) + [IncludeRef(relation, scope)])
      ensures Extended(old(includes), IncludeRef(relation, scope), includes)
    {
      includes := Append(includes, IncludeRef(relation, scope), spare);
    }

    method WithWhere(builder: WhereBuilder?)
      modifies this`where, this`err
      ensures Value() ==
                match old(BuildNullable(builder))
                case Failed(e) => old(Value()).(err := Some(e))
                case Tree(w) => if w.m == map[] then old(Value()).(err := Some(WHERE_EMPTY))
                                else old(Value()).(where := old(where) + [w])
    {
      var built := BuildOrNil(builder);
      match built
      case Failed(e) => err := Some(e);
      case Tree(w) =>
        if w.m == map[] {
          err := Some(WHERE_EMPTY);
          return;
        }
        where := where + [w];
    }

    method Build() returns (r: BuildResult)
      ensures r == BuildOutcome()
    {
      if err.Some? {
        return Refused(err.value);
      }
      var w := EMPTY;
      if |where| == 1 {
        w := where[0];
      } else if |where| > 1 {
        w := Where(map[And := Group(where)]);
      }
      if fields != null && !ValidProjection(fields.m) {
        return Refused(CANNOT_MIX);
      }
      r := Filtered(FilterRef(w, fields, OrZero(limit), order, OrZero(skip), includes));
    }

    /** What Build returns in the current state. */
    function BuildOutcome(): BuildResult
      reads this, fields
    {
      if err.Some? then Refused(err.value)
      else if fields != null && !ValidProjection(fields.m) then Refused(CANNOT_MIX)
      else Filtered(AsFilter())
    }

    /** The filter of the builder's parts, which Build returns unless it fails. */
    function AsFilter(): FilterRef
      reads this
    {
      FilterRef(Conjunction(where), fields, OrZero(limit), order, OrZero(skip), includes)
    }

    /** The projection and the slices of the filter are taken over by reference, nil or
        not; the limit and the skip are set even when they are zero. An earlier error stays. */
    method FromLBFilter(filter: Option<FilterRef>)
      modifies this
      ensures filter.None? ==> unchanged(this)
      ensures filter.Some? ==>
                var f := filter.value;
                && fields == f.fields && order == f.order && includes == f.includes
                && Value() == Contents([f.where], Entries(f.fields), Some(f.limit), Some(f.skip), f.order.Content(),
                                       f.includes.Content(),
                                       if ValidProjection(Entries(f.fields)) then old(err) else Some(CANNOT_MIX))
    {
      if filter.None? {
        return;
      }
      var f := filter.value;
      where, fields, limit, skip := [f.where], f.fields, Some(f.limit), Some(f.skip);
      order, includes := f.order, f.includes;
      if !ValidProjection(Entries(fields)) {
        err := Some(CANNOT_MIX);
      }
    }

    method Reset()
      modifies this
      ensures Value() == NOTHING && fields != null && fresh(fields)
      ensures order == Nil() && includes == Nil()
    {
      where, limit, skip, order, includes, err := [], None, None, Nil(), Nil(), None;
      fields := new FieldMap(map[]);
    }

    method Clone() returns (clone: FilterBuilder)
      ensures fresh(clone) && OwnsAll(clone)
      ensures clone.Value() == Value()
    {
      clone := new FilterBuilder();
      clone.where, clone.limit, clone.skip, clone.err := where, limit, skip, err;
      clone.CopyParts(this);
    }

    /** Copies what would be shared otherwise. */
    method CopyParts(b: FilterBuilder)
      requires b != this && fields != null && fields.m == map[] && b.fields != fields
      modifies this`order, this`includes, fields
      ensures fields.m == Entries(b.fields)
      ensures order.Content() == b.order.Content() && (order.cells != null ==> fresh(order.cells))
      ensures includes.Content() == b.includes.Content() && (includes.cells != null ==> fresh(includes.cells))
    {
      order := Fresh(b.order.Content(), 0);
      includes := Fresh(b.includes.Content(), 0);
      fields.m := fields.m + Entries(b.fields);
    }

    method MergeWith(other: FilterBuilder?, config: Option<MergeConfig>, spare: nat) returns (result: FilterBuilder)
      ensures fresh(result) && (result.fields != null ==> OwnsAll(result))
      ensures result.fields == null ==> result.order == Nil() && result.includes == Nil()
      ensures result.Value() == if other == null then Value()
                                else Merged(Value(), other.Value(),
                                  if config.Some? then config.value else DEFAULT_MERGE)
    {
      if other == null {
        result := Clone();
        return;
      }
      if err.Some? || other.err.Some? {
        result := new FilterBuilder();
        result.fields := null;
        result.err := if err.Some? then err else other.err;
        return;
      }
      result := Clone();
      result.Absorb(other, if config.Some? then config.value else DEFAULT_MERGE, spare);
    }

    /** Takes over what the other builder has; neither of the two has an error. */
    method Absorb(other: FilterBuilder, merge: MergeConfig, spare: nat)
      requires other != this && fields != null && other.fields != fields && err.None? && other.err.None?
      modifies this, fields
      ensures Value() == Merged(old(Value()), other.Value(), merge)
      ensures fields == old(fields)
      ensures order == old(order) || (order.cells != null ==> fresh(order.cells))
      ensures includes == old(includes) || (includes.cells != null ==> fresh(includes.cells))
    {
      MergeWhere(other.where, merge.or);
      MergeFields(Entries(other.fields), merge.allowFieldConflicts);
      if err.None? {
        MergeRest(other, merge.maxLimit, spare);
      }
    }

    method MergeRest(other: FilterBuilder, maxLimit: Option<nat>, spare: nat)
      requires other != this
      modifies this`limit, this`skip, this`order, this`includes
      ensures limit == MergedLimit(old(limit), other.limit, maxLimit)
      ensures skip == if other.skip.Some? then other.skip else old(skip)
      ensures order.Content() == if other.order.Content() != [] then other.order.Content() else old(order.Content())
      ensures includes.Content() == old(includes.Content()) + other.includes.Content()
      ensures order == old(order) || (order.cells != null ==> fresh(order.cells))
      ensures includes == old(includes) || (includes.cells != null ==> fresh(includes.cells))
    {
      limit := MergedLimit(limit, other.limit, maxLimit);
      if other.skip.Some? {
        skip := other.skip;
      }
      if other.order.Content() != [] {
        order := Fresh(other.order.Content(), 0);
      }
      if other.includes.Content() != [] {
        includes := Fresh(includes.Content() + other.includes.Content(), spare);
      }
    }

    method MergeWhere(otherWhere: seq<Where>, or: bool)
      modifies this`where
      ensures where == MergedWhere(old(where), otherWhere, or)
    {
      if |otherWhere| > 0 {
        if |where| == 0 {
          where := otherWhere;
        } else {
          var pair := Group([Conjunction(where), Conjunction(otherWhere)]);
          where := [if or then Where(map[Or := pair]) else Where(map[And := pair])];
        }
      }
    }

    method MergeFields(otherFields: map<string, bool>, allowConflicts: bool)
      requires fields != null && err.None?
      modifies this`err, fields
      ensures (fields.m, err) == MergedFields(old(fields.m), otherFields, allowConflicts)
    {
      if otherFields == map[] {
        return;
      }
      if fields.m != map[] && !allowConflicts && Conflict(fields.m, otherFields) {
        err := Some(FIELD_CONFLICT);
        return;
      }
      fields.m := fields.m + otherFields;
      if !ValidProjection(fields.m) {
        err := Some(CANNOT_MIX);
      }
    }
  }

  /** Everything the builder writes to is new. */
  twostate predicate OwnsAll(new b: FilterBuilder)
    reads b
  {
    && b.fields != null && fresh(b.fields)
    && (b.order.cells != null ==> fresh(b.order.cells)) && (b.includes.cells != null ==> fresh(b.includes.cells))
  }

  // ----- what a built filter means -----

  /** Merging two builders that both have conditions means their conjunction or
      disjunction. */
  lemma MergedWhereMeans(a: seq<Where>, b: seq<Where>, or: bool, view: View, env: Env)
    requires a != [] && b != []
    ensures AllHold(MergedWhere(a, b, or), view, env) <==>
            if or then AllHold(a, view, env) || AllHold(b, view, env)
            else AllHold(a, view, env) && AllHold(b, view, env)
  {
    ConjunctionMeans(a, view, env);
    ConjunctionMeans(b, view, env);
    var (x, y) := (Conjunction(a), Conjunction(b));
    var w := MergedWhere(a, b, or)[0];
    PairMeans(x, y, view, env);
    var k := if or then Or else And;
    assert Holds(w, view, env) <==> HoldsEntry(k, w.m[k], view, env);
    assert MergedWhere(a, b, or) == [] + [w];
    AppendMember([], w, view, env);
  }

  lemma PairMeans(x: Where, y: Where, view: View, env: Env)
    ensures AllHold([x, y], view, env) <==> Holds(x, view, env) && Holds(y, view, env)
    ensures AnyHolds([x, y], view, env) <==> Holds(x, view, env) || Holds(y, view, env)
  {
    AppendMember([x], y, view, env);
    AppendMember([], x, view, env);
    assert [x, y] == [x] + [y] && [x] == [] + [x];
  }

  /** A merge that reports no error has a projection that Build accepts, provided the
      first builder had one. */
  lemma MergedProjectionIsValid(a: Contents, b: Contents, config: MergeConfig)
    requires ValidProjection(a.fields) && Merged(a, b, config).err.None?
    ensures ValidProjection(Merged(a, b, config).fields)
  {}
}
