/** Reading a whole filter, with its orders, its included relations and their nested
    scopes, from a JSON tree, and printing it by its struct tags. */
module FilterParser {
  import opened Wrappers
  import opened Strings
  import opened Lbq
  import opened QueryParser
  import opened OrderParser
  import opened WherePrinter

  const UINT_LIMIT: nat := 0x1_0000_0000_0000_0000

  const WHERE_KEY := Path("where")
  const ORDER_KEY := Path("order")
  const FIELDS_KEY := Path("fields")
  const LIMIT_KEY := Path("limit")
  const SKIP_KEY := Path("skip")
  const INCLUDE_KEY := Path("include")
  const RELATION_KEY := Path("relation")
  const SCOPE_KEY := Path("scope")
  const FIELD_KEY := Path("field")
  const DIRECTION_KEY := Path("Direction")

  // ----- specification -----

  /** A whole number that fits 64 bits; anything else reads as zero. A number is its value: how
      it is written, with a point or an exponent, is not seen. */
  function UintOf(j: Option<Json>): nat {
    match j
    case Some(JNum(n)) => if 0.0 <= n && n == n.Floor as real && n.Floor < UINT_LIMIT then n.Floor else 0
    case _ => 0
  }

  function Relations(names: seq<string>): seq<Include> {
    seq(|names|, i requires 0 <= i < |names| => Include(names[i], None))
  }

  function FieldsOfNames(items: seq<Json>): Option<map<string, bool>>
    decreases items
  {
    if items == [] then Some(map[])
    else
      var last := items[|items| - 1];
      match FieldsOfNames(items[..|items| - 1])
      case Some(front) => if last.JStr? then Some(front[last.s := true]) else None
      case None => None
  }

  /** Members that are neither true nor false are passed over. */
  function FieldsOfMembers(ms: seq<Member>): map<string, bool>
    decreases ms
  {
    if ms == [] then map[]
    else
      var front := FieldsOfMembers(ms[..|ms| - 1]);
      var last := ms[|ms| - 1];
      if last.value.JBool? then front[Text(last.key) := last.value.b] else front
  }

  function ParseFields(j: Option<Json>): Option<map<string, bool>> {
    match j
    case None => Some(map[])
    case Some(JArr(items)) => FieldsOfNames(items)
    case Some(JObj(ms)) => Some(FieldsOfMembers(ms))
    case _ => None
  }

  function ParseWhereMember(j: Option<Json>): Option<Where> {
    match j
    case None => Some(EMPTY)
    case Some(value) => ParseWhere(value)
  }

  function ParseOrderMember(j: Option<Json>): Option<seq<Order>> {
    match j
    case None => Some([])
    case Some(value) => ParseOrders(value)
  }

  function ParseFilter(j: Json): Option<Filter>
    decreases j, 1
  {
    if !j.JObj? then None
    else
      var ms := j.members;
      var where := ParseWhereMember(Part(j, WHERE_KEY));
      var order := ParseOrderMember(Part(j, ORDER_KEY));
      var fields := ParseFields(Part(j, FIELDS_KEY));
      var included := Part(j, INCLUDE_KEY);
      var includes := if included.Some? then ParseInclude(included.value) else Some([]);
      Assemble(where, order, fields, UintOf(Part(j, LIMIT_KEY)), UintOf(Part(j, SKIP_KEY)), includes)
  }

  /** All parts must have been read. */
  function Assemble(where: Option<Where>, order: Option<seq<Order>>, fields: Option<map<string, bool>>, limit: nat,
          skip: nat, includes: Option<seq<Include>>): Option<Filter>
  {
    if where.Some? && order.Some? && fields.Some? && includes.Some? then
      Some(Filter(fields.value, limit, order.value, skip, where.value, includes.value))
    else None
  }

  function ParseInclude(j: Json): Option<seq<Include>>
    decreases j, 0
  {
    match j
    case JStr(s) => Some(Relations(Split(s, ',')))
    case JArr(items) => ParseIncludes(items)
    case JObj(ms) =>
      if Part(j, RELATION_KEY).None? || !Part(j, RELATION_KEY).value.JStr? then None
      else
        var relation := Part(j, RELATION_KEY).value.s;
        (match Part(j, SCOPE_KEY)
         case None => Some([Include(relation, None)])
         case Some(scope) =>
           if !scope.JObj? then None
           else
             match ParseFilter(scope)
             case Some(f) => Some([Include(relation, Some(f))])
             case None => None)
    case _ => Some([])
  }

  function ParseIncludes(items: seq<Json>): Option<seq<Include>>
    decreases items
  {
    if items == [] then Some([])
    else
      var front := ParseIncludes(items[..|items| - 1]);
      var last := ParseInclude(items[|items| - 1]);
      if front.Some? && last.Some? then Some(front.value + last.value) else None
  }

  // ----- the parser -----

  method ParseFieldsValue(j: Json) returns (fields: map<string, bool>, failed: bool)
    ensures failed <==> ParseFields(Some(j)).None?
    ensures !failed ==> ParseFields(Some(j)) == Some(fields)
  {
    fields, failed := map[], false;
    match j
    case JArr(items) =>
      for i := 0 to |items|
        invariant FieldsOfNames(items[..i]) == Some(fields)
      {
        assert items[..i + 1][..i] == items[..i];
        if !items[i].JStr? {
          NamesFail(items, i);
          return map[], true;
        }
        fields := fields[items[i].s := true];
      }
      assert items[..|items|] == items;
    case JObj(ms) =>
      for i := 0 to |ms|
        invariant FieldsOfMembers(ms[..i]) == fields
      {
        assert ms[..i + 1][..i] == ms[..i];
        if ms[i].value.JBool? {
          fields := fields[Text(ms[i].key) := ms[i].value.b];
        }
      }
      assert ms[..|ms|] == ms;
    case _ => failed := true;
  }

  lemma {:induction false} NamesFail(items: seq<Json>, i: nat)
    requires i < |items| && !items[i].JStr?
    ensures FieldsOfNames(items).None?
    decreases items
  {
    if i < |items| - 1 { NamesFail(items[..|items| - 1], i); }
  }

  method ParseFilterValue(j: Json) returns (f: Option<Filter>)
    ensures f == ParseFilter(j)
    decreases j, 1
  {
    if !j.JObj? {
      return None;
    }
    var filter := ParseFlatParts(Part(j, WHERE_KEY), Part(j, ORDER_KEY), Part(j, FIELDS_KEY), Part(j, LIMIT_KEY),
                                 Part(j, SKIP_KEY));
    if filter.None? {
      return None;
    }
    var includeValue := Part(j, INCLUDE_KEY);
    if includeValue.None? {
      return filter;
    }
    var includes := ParseIncludeValue(includeValue.value);
    f := if includes.Some? then Some(filter.value.(includes := includes.value)) else None;
  }

  /** All parts but the included relations. */
  method ParseFlatParts(whereValue: Option<Json>, orderValue: Option<Json>, fieldsValue: Option<Json>,
          limitValue: Option<Json>, skipValue: Option<Json>)
    returns (f: Option<Filter>)
    ensures f == Assemble(ParseWhereMember(whereValue), ParseOrderMember(orderValue), ParseFields(fieldsValue),
                          UintOf(limitValue), UintOf(skipValue), Some([]))
  {
    var filter := Filter(map[], 0, [], 0, EMPTY, []);
    if whereValue.Some? {
      var where, failed := ParseWhereValue(whereValue.value);
      if failed {
        return None;
      }
      filter := filter.(where := where);
    }
    if orderValue.Some? {
      var order := ParseOrderValue(orderValue.value);
      if order.None? {
        return None;
      }
      filter := filter.(order := order.value);
    }
    if fieldsValue.Some? {
      var fields, failed := ParseFieldsValue(fieldsValue.value);
      if failed {
        return None;
      }
      filter := filter.(fields := fields);
    }
    f := Some(filter.(limit := UintOf(limitValue), skip := UintOf(skipValue)));
  }

  method ParseIncludeValue(j: Json) returns (r: Option<seq<Include>>)
    ensures r == ParseInclude(j)
    decreases j, 0
  {
    match j
    case JStr(s) => r := Some(Relations(Split(s, ',')));
    case JObj(ms) =>
      var name, scope := Part(j, RELATION_KEY), Part(j, SCOPE_KEY);
      if name.None? || !name.value.JStr? {
        return None;
      }
      if scope.None? {
        return Some([Include(name.value.s, None)]);
      }
      if !scope.value.JObj? {
        return None;
      }
      var f := ParseFilterValue(scope.value);
      r := if f.Some? then Some([Include(name.value.s, f)]) else None;
    case JArr(items) =>
      var result: seq<Include> := [];
      for i := 0 to |items|
        invariant ParseIncludes(items[..i]) == Some(result)
      {
        var more := ParseIncludeValue(items[i]);
        assert items[..i + 1][..i] == items[..i];
        if more.None? {
          IncludesFail(items, i);
          return None;
        }
        result := result + more.value;
      }
      assert items[..|items|] == items;
      r := Some(result);
    case _ => r := Some([]);
  }

  lemma {:induction false} IncludesFail(items: seq<Json>, i: nat)
    requires i < |items| && ParseInclude(items[i]).None?
    ensures ParseIncludes(items).None?
    decreases items
  {
    if i < |items| - 1 { IncludesFail(items[..|items| - 1], i); }
  }

  // ----- printing by the struct tags -----

  ghost predicate PrintsFilter(f: Filter, j: Json)
    decreases f, 1
  {
    && j.JObj?
    && PrintsParts(f, Part(j, WHERE_KEY), Part(j, ORDER_KEY), Part(j, FIELDS_KEY), Part(j, LIMIT_KEY),
                   Part(j, SKIP_KEY), Part(j, INCLUDE_KEY))
  }

  /** Empty parts are omitted. */
  ghost predicate PrintsParts(f: Filter, where: Option<Json>, order: Option<Json>, fields: Option<Json>,
          limit: Option<Json>, skip: Option<Json>, included: Option<Json>)
    decreases f, 0
  {
    && PrintsWhereMember(f.where, where) && PrintsOrders(f.order, order) && PrintsFieldsMember(f.fields, fields)
    && PrintsUint(f.limit, limit) && PrintsUint(f.skip, skip)
    && (match included
        case None => f.includes == []
        case Some(v) => f.includes != [] && v.JArr? && PrintsIncludes(f.includes, v.items))
  }

  ghost predicate PrintsWhereMember(w: Where, j: Option<Json>) {
    match j
    case None => w.m == map[]
    case Some(v) => w.m != map[] && PrintsWhere(w, v)
  }

  /** Orders print as objects, not as the strings they are read from. */
  predicate PrintsOrders(orders: seq<Order>, j: Option<Json>) {
    match j
    case None => orders == []
    case Some(v) =>
      && orders != [] && v.JArr? && |v.items| == |orders|
      && forall i :: 0 <= i < |orders| ==> PrintsOrder(orders[i], v.items[i])
  }

  predicate PrintsOrder(o: Order, j: Json) {
    j.JObj? && PrintsText(o.field, Part(j, FIELD_KEY)) && PrintsText(o.direction, Part(j, DIRECTION_KEY))
  }

  predicate PrintsText(s: string, j: Option<Json>) {
    match j
    case None => s == ""
    case Some(v) => s != "" && v == JStr(s)
  }

  predicate PrintsFieldsMember(fields: map<string, bool>, j: Option<Json>) {
    match j
    case None => fields == map[]
    case Some(v) => fields != map[] && PrintsFields(fields, v)
  }

  predicate PrintsUint(n: nat, j: Option<Json>) {
    match j
    case None => n == 0
    case Some(v) => n != 0 && v == JNum(n as real)
  }

  predicate PrintsFields(fields: map<string, bool>, j: Json) {
    && j.JObj?
    && (forall i, l :: 0 <= i < l < |j.members| ==> Text(j.members[i].key) != Text(j.members[l].key))
    && (forall i :: 0 <= i < |j.members| ==>
          Text(j.members[i].key) in fields && j.members[i].value == JBool(fields[Text(j.members[i].key)]))
    && (forall name <- fields.Keys :: NameIn(name, j.members))
  }

  predicate NameIn(name: string, ms: seq<Member>) { exists i :: 0 <= i < |ms| && Text(ms[i].key) == name }

  ghost predicate PrintsIncludes(includes: seq<Include>, items: seq<Json>)
    decreases includes
  {
    |items| == |includes| && forall i :: 0 <= i < |items| ==> PrintsInclude(includes[i], items[i])
  }

  ghost predicate PrintsInclude(entry: Include, j: Json)
    decreases entry
  {
    && j.JObj?
    && PrintsText(entry.relation, Part(j, RELATION_KEY))
    && (match Part(j, SCOPE_KEY)
        case None => entry.scope.None?
        case Some(v) => entry.scope.Some? && PrintsFilter(entry.scope.value, v))
  }

  // ----- what survives printing and reading -----

  /** Filters of the shape the parser gives them. */
  ghost predicate Readable(f: Filter)
    decreases f
  {
    && Parsed(f.where) && OperandsFromJson(f.where)
    && f.limit < UINT_LIMIT && f.skip < UINT_LIMIT
    && forall i :: 0 <= i < |f.includes| ==> (f.includes[i].scope.Some? ==> Readable(f.includes[i].scope.value))
  }

  /** No operand is or holds a nil slice, there are no orders and every relation has a
      name, in nested scopes too. */
  ghost predicate Survives(f: Filter)
    decreases f
  {
    NoNilOperand(f.where) && f.order == [] && AllSurvive(f.includes)
  }

  ghost predicate AllSurvive(includes: seq<Include>)
    decreases includes
  {
    forall i :: 0 <= i < |includes| ==> IncludeSurvives(includes[i])
  }

  ghost predicate IncludeSurvives(entry: Include)
    decreases entry
  {
    entry.relation != "" && (entry.scope.Some? ==> Survives(entry.scope.value))
  }

  lemma {:induction false} FieldsReadBack(fields: map<string, bool>, ms: seq<Member>)
    requires forall i, l :: 0 <= i < l < |ms| ==> Text(ms[i].key) != Text(ms[l].key)
    requires forall i :: 0 <= i < |ms| ==> Text(ms[i].key) in fields && ms[i].value == JBool(fields[Text(ms[i].key)])
    ensures forall i :: 0 <= i < |ms| ==> Text(ms[i].key) in FieldsOfMembers(ms)
    ensures forall name :: name in FieldsOfMembers(ms) ==> name in fields && FieldsOfMembers(ms)[name] == fields[name]
    decreases ms
  {
    if ms != [] {
      var end := |ms| - 1;
      FieldsReadBack(fields, ms[..end]);
      assert forall i :: 0 <= i < end ==> ms[..end][i] == ms[i];
    }
  }

  lemma FieldsRoundTrip(fields: map<string, bool>, j: Option<Json>)
    requires PrintsFieldsMember(fields, j)
    ensures ParseFields(j) == Some(fields)
  {
    if j.Some? {
      var ms := j.value.members;
      FieldsReadBack(fields, ms);
      forall name | name in fields ensures name in FieldsOfMembers(ms) {
        assert NameIn(name, ms);
      }
      assert FieldsOfMembers(ms) == fields;
    }
  }

  lemma WhereMemberRoundTrip(w: Where, j: Option<Json>)
    requires PrintsWhereMember(w, j) && Parsed(w) && OperandsFromJson(w)
    ensures ParseWhereMember(j) == Some(w) <==> NoNilOperand(w)
  {
    if j.Some? {
      WhereRoundTrip(w, j.value);
    }
  }

  /** Printed orders are never read. */
  lemma OrdersRoundTrip(orders: seq<Order>, j: Option<Json>)
    requires PrintsOrders(orders, j)
    ensures ParseOrderMember(j) == Some(orders) <==> orders == []
  {
    if j.Some? {
      var items := j.value.items;
      assert PrintsOrder(orders[|items| - 1], items[|items| - 1]);
    }
  }

  lemma UintRoundTrip(n: nat, j: Option<Json>)
    requires PrintsUint(n, j) && n < UINT_LIMIT
    ensures UintOf(j) == n
  {}

  /** Reading what a filter prints gives the filter back exactly when all of it survives
      printing. */
  lemma {:induction false} FilterRoundTrip(f: Filter, j: Json)
    requires Readable(f) && PrintsFilter(f, j)
    ensures ParseFilter(j) == Some(f) <==> Survives(f)
    decreases f, 2
  {
    PartsRoundTrip(f, Part(j, WHERE_KEY), Part(j, ORDER_KEY), Part(j, FIELDS_KEY), Part(j, LIMIT_KEY),
                   Part(j, SKIP_KEY), Part(j, INCLUDE_KEY));
  }

  function ParseIncludeMember(j: Option<Json>): Option<seq<Include>> {
    if j.Some? then ParseInclude(j.value) else Some([])
  }

  lemma {:induction false} PartsRoundTrip(f: Filter, where: Option<Json>, order: Option<Json>, fields: Option<Json>,
          limit: Option<Json>, skip: Option<Json>, included: Option<Json>)
    requires Readable(f) && PrintsParts(f, where, order, fields, limit, skip, included)
    ensures var read := Assemble(ParseWhereMember(where), ParseOrderMember(order), ParseFields(fields),
                                 UintOf(limit), UintOf(skip), ParseIncludeMember(included));
            read == Some(f) <==> Survives(f)
    decreases f, 1
  {
    FlatRoundTrip(f, where, order, fields, limit, skip);
    if included.Some? {
      IncludesRoundTrip(f, f.includes, included.value.items);
    }
    AssembleIs(f, ParseWhereMember(where), ParseOrderMember(order), ParseIncludeMember(included));
  }

  lemma {:induction false} FlatRoundTrip(f: Filter, where: Option<Json>, order: Option<Json>, fields: Option<Json>,
          limit: Option<Json>, skip: Option<Json>)
    requires Parsed(f.where) && OperandsFromJson(f.where) && f.limit < UINT_LIMIT && f.skip < UINT_LIMIT
    requires PrintsWhereMember(f.where, where) && PrintsOrders(f.order, order) && PrintsFieldsMember(f.fields, fields)
    requires PrintsUint(f.limit, limit) && PrintsUint(f.skip, skip)
    ensures ParseWhereMember(where) == Some(f.where) <==> NoNilOperand(f.where)
    ensures ParseOrderMember(order) == Some(f.order) <==> f.order == []
    ensures ParseFields(fields) == Some(f.fields) && UintOf(limit) == f.limit && UintOf(skip) == f.skip
  {
    WhereMemberRoundTrip(f.where, where);
    OrdersRoundTrip(f.order, order);
    FieldsRoundTrip(f.fields, fields);
    UintRoundTrip(f.limit, limit);
    UintRoundTrip(f.skip, skip);
  }

  lemma AssembleIs(f: Filter, where: Option<Where>, order: Option<seq<Order>>, includes: Option<seq<Include>>)
    ensures Assemble(where, order, Some(f.fields), f.limit, f.skip, includes) == Some(f) <==>
            where == Some(f.where) && order == Some(f.order) && includes == Some(f.includes)
  {}

  lemma {:induction false} IncludesRoundTrip(f: Filter, includes: seq<Include>, items: seq<Json>)
    requires PrintsIncludes(includes, items)
    requires forall i :: 0 <= i < |includes| ==> includes[i] in f.includes
    requires Readable(f)
    ensures ParseIncludes(items) == Some(includes) <==> AllSurvive(includes)
    ensures ParseIncludes(items).Some? ==> |ParseIncludes(items).value| == |includes|
    decreases f, 0, |items| + 1
  {
    if items != [] {
      var end := |items| - 1;
      PrintsLast(includes, items);
      IncludesRoundTrip(f, includes[..end], items[..end]);
      IncludeRoundTrip(f, includes[end], items[end]);
      AppendIncludes(includes, items);
    }
  }

  lemma {:induction false} PrintsLast(includes: seq<Include>, items: seq<Json>)
    requires PrintsIncludes(includes, items) && items != []
    ensures var end := |items| - 1;
            && PrintsIncludes(includes[..end], items[..end]) && PrintsInclude(includes[end], items[end])
            && (AllSurvive(includes) <==> AllSurvive(includes[..end]) && IncludeSurvives(includes[end]))
  {
    var end := |items| - 1;
    assert includes == includes[..end] + [includes[end]];
    assert AllSurvive(includes) <==> forall i :: 0 <= i < end + 1 ==> IncludeSurvives(includes[i]);
  }

  lemma {:induction false} AppendIncludes(includes: seq<Include>, items: seq<Json>)
    requires |items| == |includes| != 0
    requires var front := ParseIncludes(items[..|items| - 1]); front.Some? ==> |front.value| == |items| - 1
    requires var last := ParseInclude(items[|items| - 1]); last.Some? ==> |last.value| == 1
    ensures ParseIncludes(items) == Some(includes) <==>
            && ParseIncludes(items[..|items| - 1]) == Some(includes[..|items| - 1])
            && ParseInclude(items[|items| - 1]) == Some([includes[|items| - 1]])
    ensures ParseIncludes(items).Some? ==> |ParseIncludes(items).value| == |items|
  {
    var end := |items| - 1;
    var (front, last) := (ParseIncludes(items[..end]), ParseInclude(items[end]));
    if front.Some? && last.Some? {
      assert (front.value + last.value)[..end] == front.value && (front.value + last.value)[end] == last.value[0];
      assert includes == includes[..end] + [includes[end]];
    }
  }

  lemma {:induction false} IncludeRoundTrip(f: Filter, entry: Include, j: Json)
    requires PrintsInclude(entry, j) && entry in f.includes && Readable(f)
    ensures ParseInclude(j) == Some([entry]) <==> IncludeSurvives(entry)
    ensures ParseInclude(j).Some? ==> |ParseInclude(j).value| == 1
    decreases f, 0, 0
  {
    var i :| 0 <= i < |f.includes| && f.includes[i] == entry;
    var (relation, scope) := (Part(j, RELATION_KEY), Part(j, SCOPE_KEY));
    if entry.scope.Some? {
      FilterRoundTrip(entry.scope.value, scope.value);
    }
    var read := if scope.Some? && scope.value.JObj? then ParseFilter(scope.value) else None;
    IncludeReads(j, relation, scope, read);
    OneIncludeIs(entry, relation, scope, read);
  }

  /** An include object, from its members and its parsed scope. */
  function OneInclude(relation: Option<Json>, scope: Option<Json>, read: Option<Filter>): Option<seq<Include>> {
    if relation.None? || !relation.value.JStr? || (scope.Some? && read.None?) then None
    else Some([Include(relation.value.s, if scope.None? then None else read)])
  }

  lemma {:induction false} IncludeReads(j: Json, relation: Option<Json>, scope: Option<Json>, read: Option<Filter>)
    requires j.JObj? && relation == Part(j, RELATION_KEY) && scope == Part(j, SCOPE_KEY)
    requires read == if scope.Some? && scope.value.JObj? then ParseFilter(scope.value) else None
    ensures ParseInclude(j) == OneInclude(relation, scope, read)
  {
  }

  lemma {:induction false} OneIncludeIs(entry: Include, relation: Option<Json>, scope: Option<Json>,
          read: Option<Filter>)
    requires relation == if entry.relation == "" then None else Some(JStr(entry.relation))
    requires scope.Some? <==> entry.scope.Some?
    requires entry.scope.Some? ==> (read == entry.scope <==> Survives(entry.scope.value))
    ensures OneInclude(relation, scope, read) == Some([entry]) <==> IncludeSurvives(entry)
  {
    assert Some([entry]) == Some([Include(entry.relation, entry.scope)]);
  }

  /** Every filter the parser returns is readable. */
  lemma {:induction false} ParsedIsReadable(j: Json)
    ensures ParseFilter(j).Some? ==> Readable(ParseFilter(j).value)
    decreases j, 1
  {
    if ParseFilter(j).Some? {
      var where := Part(j, WHERE_KEY);
      if where.Some? {
        ParserShape(where.value);
        ParsedOperands(where.value);
      }
      var included := Part(j, INCLUDE_KEY);
      if included.Some? {
        ParsedIncludesAreReadable(included.value);
      }
    }
  }

  lemma {:induction false} ParsedIncludesAreReadable(j: Json)
    ensures ParseInclude(j).Some? ==>
              forall i :: 0 <= i < |ParseInclude(j).value| ==>
                ParseInclude(j).value[i].scope.Some? ==> Readable(ParseInclude(j).value[i].scope.value)
    decreases j, 0
  {
    match j
    case JObj(ms) =>
      if Part(j, SCOPE_KEY).Some? { ParsedIsReadable(Part(j, SCOPE_KEY).value); }
    case JArr(items) => ParsedListIsReadable(items);
    case _ =>
  }

  lemma {:induction false} ParsedListIsReadable(items: seq<Json>)
    ensures ParseIncludes(items).Some? ==>
              forall i :: 0 <= i < |ParseIncludes(items).value| ==>
                ParseIncludes(items).value[i].scope.Some? ==> Readable(ParseIncludes(items).value[i].scope.value)
    decreases items
  {
    if items != [] {
      ParsedListIsReadable(items[..|items| - 1]);
      ParsedIncludesAreReadable(items[|items| - 1]);
    }
  }

  /** Parsing, printing and parsing again is the identity on what the first parse
      returned exactly when all of that survives printing. */
  lemma ParsePrintParse(text: Json, f: Filter, printed: Json)
    requires ParseFilter(text) == Some(f) && PrintsFilter(f, printed)
    ensures ParseFilter(printed) == Some(f) <==> Survives(f)
  {
    ParsedIsReadable(text);
    FilterRoundTrip(f, printed);
  }
}
