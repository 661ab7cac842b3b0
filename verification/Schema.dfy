/** Building the table of declared JSON paths from a tree of struct types and their tags. */
module Schemas {
  import opened Wrappers
  import opened Strings
  import L = Lbq
  import opened FieldResolution
  import W = WhereCompiler
  import CompilerShape
  import Projections

  /** A Go type: its name, whether it implements IModel, and its kind. Type trees are finite. */
  datatype GoType = GoType(name: string, model: bool, kind: Kind)

  /** `DateStruct` is time.Time or MongoDate; `Plain` is every kind the code does not look into. */
  datatype Kind =
    | Plain
    | DateStruct
    | Struct(fields: seq<StructField>)
    | List(elem: GoType)
    | Pointer(target: GoType)

  /** What the `filter` tag says of returning a field. */
  datatype Rule = Unruled | Always | Never

  /** A struct field: its name, as it is and lower-cased, its tags ("" when absent), whether
      isRelation holds of it, its type. */
  datatype StructField = StructField(
    name: string, lowered: string, bson: string, json: string, rule: Rule, relation: bool, typ: GoType)

  // Tags

  datatype Tags = Tags(name: string, omitEmpty: bool, minSize: bool, truncate: bool, inline: bool, skip: bool,
                       required: bool)

  const NO_TAGS := Tags("", false, false, false, false, false, false)

  function TagsOf(key: string, tag: string): Tags {
    var parts := Split(tag, ',');
    if tag == "-" then NO_TAGS.(skip := true)
    else Tags(if parts[0] == "" then key else parts[0], "omitempty" in parts, "minsize" in parts, "truncate" in parts,
              "inline" in parts, false, "required" in parts)
  }

  method ParseXSONTags(key: string, tag: string) returns (st: Tags)
    ensures st == TagsOf(key, tag)
  {
    st := NO_TAGS;
    if tag == "-" {
      return st.(skip := true);
    }
    var parts := Split(tag, ',');
    var name, i := key, 0;
    while i < |parts|
      invariant 0 <= i <= |parts|
      invariant name == if i > 0 && parts[0] != "" then parts[0] else key
      invariant st == Tags("", "omitempty" in parts[..i], "minsize" in parts[..i], "truncate" in parts[..i],
                           "inline" in parts[..i], false, "required" in parts[..i])
    {
      var part := parts[i];
      if i == 0 && part != "" {
        name := part;
      }
      assert parts[..i + 1] == parts[..i] + [part];
      st := st.(omitEmpty := st.omitEmpty || part == "omitempty", minSize := st.minSize || part == "minsize",
                truncate := st.truncate || part == "truncate", inline := st.inline || part == "inline",
                required := st.required || part == "required");
      i := i + 1;
    }
    assert parts[..i] == parts;
    st := st.(name := name);
  }

  function BsonTags(f: StructField): Tags { TagsOf(f.lowered, f.bson) }

  function JsonTags(f: StructField): Tags { TagsOf(f.lowered, f.json) }

  // The shape of a struct: what its fields declare, with inlined structs opened and models and relations left out

  datatype Node = Node(
    name: string, rule: Rule, json: string, bson: string, dataType: string, isPointer: bool, children: seq<Node>)

  function Indirect(t: GoType): GoType {
    if t.kind.Pointer? then t.kind.target else t
  }

  function Shape(fields: seq<StructField>): seq<Node>
    decreases fields
  {
    if fields == [] then [] else Shape(fields[..|fields| - 1]) + FieldShape(fields[|fields| - 1])
  }

  lemma {:induction false} ShapeGrows(fields: seq<StructField>, i: nat)
    requires i < |fields|
    ensures Shape(fields[..i + 1]) == Shape(fields[..i]) + FieldShape(fields[i])
  {
    assert fields[..i + 1][..i] == fields[..i];
  }

  function FieldShape(f: StructField): seq<Node>
    decreases f
  {
    var (isPointer, t) := (f.typ.kind.Pointer?, Indirect(f.typ));
    match t.kind
    case DateStruct => [NodeOf(f, L.DT_DATE, isPointer, [])]
    case Struct(fields) =>
      if BsonTags(f).inline then Shape(fields)
      else if t.model || f.relation then []
      else [NodeOf(f, t.name, isPointer, Shape(fields))]
    case List(elem) =>
      if t.name == L.DT_OBJECT_ID then [NodeOf(f, L.DT_OBJECT_ID, false, [])]
      else if elem.model || f.relation then []
      else [NodeOf(f, elem.name, false, if elem.kind.Struct? then Shape(elem.kind.fields) else [])]
    case _ => [NodeOf(f, t.name, false, [])]
  }

  function NodeOf(f: StructField, dataType: string, isPointer: bool, children: seq<Node>): Node {
    Node(f.name, f.rule, JsonTags(f).name, BsonTags(f).name, dataType, isPointer, children)
  }

  // From shapes to dotted paths

  /** One name below a prefix; no dot when the prefix is empty. */
  function Step(prefix: string, name: string): string {
    (if prefix == "" then "" else prefix + ".") + name
  }

  /** Declares every node in turn, each before its children. */
  function Fill(m: L.Fields, nodes: seq<Node>, json: string, bson: string): L.Fields
    decreases nodes
  {
    if nodes == [] then m
    else FillNode(Fill(m, nodes[..|nodes| - 1], json, bson), nodes[|nodes| - 1], json, bson)
  }

  function FillNode(m: L.Fields, n: Node, json: string, bson: string): L.Fields
    decreases n
  {
    var (j, b) := (Step(json, n.json), Step(bson, n.bson));
    Fill(m[j := L.Field(b, n.dataType, n.isPointer)], n.children, j, b)
  }

  lemma {:induction false} FillJoins(m: L.Fields, one: seq<Node>, two: seq<Node>, json: string, bson: string)
    ensures Fill(m, one + two, json, bson) == Fill(Fill(m, one, json, bson), two, json, bson)
  {
    if two == [] {
      assert one + two == one;
    } else {
      var n := |two| - 1;
      FillJoins(m, one, two[..n], json, bson);
      assert (one + two)[..|one| + n] == one + two[..n];
      assert (one + two)[|one| + n] == two[n];
    }
  }

  lemma {:induction false} FillOne(m: L.Fields, n: Node, json: string, bson: string)
    ensures Fill(m, [n], json, bson) == FillNode(m, n, json, bson)
  {
    assert [n][..0] == [];
  }

  // The tables by field name

  /** What the schema keeps under a field's own name: the field, and the JSON names of
      those that are always or never to be returned. */
  datatype Names = Names(fields: L.Fields, required: map<string, string>, banned: map<string, string>)

  const NO_NAMES := Names(map[], map[], map[])

  function AddName(t: Names, n: Node, json: string, field: L.Field): Names {
    Names(t.fields[n.name := field],
          if n.rule.Always? then t.required[n.name := json] else t.required,
          if n.rule.Never? then t.banned[n.name := json] else t.banned)
  }

  function FieldOf(n: Node, bson: string): L.Field { L.Field(bson, n.dataType, n.isPointer) }

  /** Only what is declared without a prefix is kept under its own name. */
  function NameAll(t: Names, nodes: seq<Node>, json: string, bson: string): Names
    decreases nodes
  {
    if nodes == [] then t
    else NameNode(NameAll(t, nodes[..|nodes| - 1], json, bson), nodes[|nodes| - 1], json, bson)
  }

  function NameNode(t: Names, n: Node, json: string, bson: string): Names
    decreases n
  {
    var (j, b) := (Step(json, n.json), Step(bson, n.bson));
    NameAll(if json == "" && bson == "" then AddName(t, n, j, FieldOf(n, b)) else t, n.children, j, b)
  }

  lemma {:induction false} NamesJoin(t: Names, one: seq<Node>, two: seq<Node>, json: string, bson: string)
    ensures NameAll(t, one + two, json, bson) == NameAll(NameAll(t, one, json, bson), two, json, bson)
  {
    if two == [] {
      assert one + two == one;
    } else {
      var n := |two| - 1;
      NamesJoin(t, one, two[..n], json, bson);
      assert (one + two)[..|one| + n] == one + two[..n];
      assert (one + two)[|one| + n] == two[n];
    }
  }

  lemma {:induction false} OneNodeFilled(m: L.Fields, t: Names, nodes: seq<Node>, json: string, bson: string)
    requires |nodes| == 1
    ensures var (n, j, b) := (nodes[0], Step(json, nodes[0].json), Step(bson, nodes[0].bson));
            && Fill(m, nodes, json, bson) == Fill(m[j := FieldOf(n, b)], n.children, j, b)
            && NameAll(t, nodes, json, bson) ==
               NameAll(if json == "" && bson == "" then AddName(t, n, j, FieldOf(n, b)) else t, n.children, j, b)
  {
    assert nodes == [nodes[0]] && [nodes[0]][..0] == [];
    FillOne(m, nodes[0], json, bson);
    assert NameAll(t, [], json, bson) == t;
  }

  class Schema {
    var jsonFields: L.Fields
    var fields: L.Fields
    var requiredFilterFields: map<string, string>
    var bannedFields: map<string, string>

    function ByName(): Names
      reads this
    {
      Names(fields, requiredFilterFields, bannedFields)
    }

    constructor (fields: seq<StructField>)
      ensures jsonFields == Fill(map[], Shape(fields), "", "")
      ensures ByName() == NameAll(NO_NAMES, Shape(fields), "", "")
    {
      jsonFields, this.fields, requiredFilterFields, bannedFields := map[], map[], map[], map[];
      new;
      InitFields(fields, "", "");
    }

    method AddField(name: string, rule: Rule, json: string, field: L.Field, top: bool)
      modifies this
      ensures jsonFields == old(jsonFields)[json := field]
      ensures ByName() == if top then AddName(old(ByName()), Node(name, rule, "", "", "", false, []), json, field)
                          else old(ByName())
    {
      if top {
        fields := fields[name := field];
        if rule.Never? {
          bannedFields := bannedFields[name := json];
        } else if rule.Always? {
          requiredFilterFields := requiredFilterFields[name := json];
        }
      }
      jsonFields := jsonFields[json := field];
    }

    method InitFields(fields: seq<StructField>, json: string, bson: string)
      modifies this
      ensures jsonFields == Fill(old(jsonFields), Shape(fields), json, bson)
      ensures ByName() == NameAll(old(ByName()), Shape(fields), json, bson)
      decreases fields, 0
    {
      var i := 0;
      while i < |fields|
        invariant 0 <= i <= |fields|
        invariant jsonFields == Fill(old(jsonFields), Shape(fields[..i]), json, bson)
        invariant ByName() == NameAll(old(ByName()), Shape(fields[..i]), json, bson)
      {
        InitField(fields[i], json, bson);
        ShapeGrows(fields, i);
        FillJoins(old(jsonFields), Shape(fields[..i]), FieldShape(fields[i]), json, bson);
        NamesJoin(old(ByName()), Shape(fields[..i]), FieldShape(fields[i]), json, bson);
        i := i + 1;
      }
      assert fields[..i] == fields;
    }

    method InitField(f: StructField, json: string, bson: string)
      modifies this
      ensures jsonFields == Fill(old(jsonFields), FieldShape(f), json, bson)
      ensures ByName() == NameAll(old(ByName()), FieldShape(f), json, bson)
      decreases f, 1
    {
      var bsonTags := ParseXSONTags(f.lowered, f.bson);
      var jsonTags := ParseXSONTags(f.lowered, f.json);
      var jsonPrefix := if json != "" then json + "." else "";
      var bsonPrefix := if bson != "" then bson + "." else "";
      var jsonName, bsonName := jsonPrefix + jsonTags.name, bsonPrefix + bsonTags.name;
      var t, isPointer := f.typ, false;
      if t.kind.Pointer? {
        t, isPointer := t.kind.target, true;
      }
      if t.kind.Struct? {
        InitStruct(f, t, bsonTags.inline, jsonName, L.Field(bsonName, t.name, isPointer), json, bson);
      } else if t.kind.List? {
        InitList(f, t, jsonName, bsonName, json, bson);
      } else {
        var isDate := t.kind.DateStruct?;
        var field := L.Field(bsonName, if isDate then L.DT_DATE else t.name, isDate && isPointer);
        DeclareLeaf(f, jsonName, field, json, bson);
      }
    }

    /** A struct: inlined, left out, or declared with its fields. */
    method InitStruct(f: StructField, t: GoType, inline: bool, jsonName: string, field: L.Field, json: string,
            bson: string)
      requires t == Indirect(f.typ) && t.kind.Struct? && inline == BsonTags(f).inline
      requires jsonName == Step(json, JsonTags(f).name)
      requires field == L.Field(Step(bson, BsonTags(f).name), t.name, f.typ.kind.Pointer?)
      modifies this
      ensures jsonFields == Fill(old(jsonFields), FieldShape(f), json, bson)
      ensures ByName() == NameAll(old(ByName()), FieldShape(f), json, bson)
      decreases f, 0
    {
      if inline {
        InitFields(t.kind.fields, json, bson);
      } else if !t.model && !f.relation {
        Declare(f, jsonName, field, t.kind.fields, json, bson);
      }
    }

    /** A slice or an array: object ids are one value, structs are looked into. */
    method InitList(f: StructField, t: GoType, jsonName: string, bsonName: string, json: string, bson: string)
      requires t == Indirect(f.typ) && t.kind.List?
      requires jsonName == Step(json, JsonTags(f).name) && bsonName == Step(bson, BsonTags(f).name)
      modifies this
      ensures jsonFields == Fill(old(jsonFields), FieldShape(f), json, bson)
      ensures ByName() == NameAll(old(ByName()), FieldShape(f), json, bson)
      decreases f, 0
    {
      var elem := t.kind.elem;
      if t.name == L.DT_OBJECT_ID {
        DeclareLeaf(f, jsonName, L.Field(bsonName, L.DT_OBJECT_ID, false), json, bson);
      } else if !elem.model && !f.relation {
        var field := L.Field(bsonName, elem.name, false);
        if elem.kind.Struct? {
          Declare(f, jsonName, field, elem.kind.fields, json, bson);
        } else {
          DeclareLeaf(f, jsonName, field, json, bson);
        }
      }
    }

    /** Adds a field, and then the fields of the struct it holds. */
    method Declare(f: StructField, jsonName: string, field: L.Field, children: seq<StructField>, json: string,
            bson: string)
      requires jsonName == Step(json, JsonTags(f).name) && field.bsonName == Step(bson, BsonTags(f).name)
      modifies this
      ensures var n := NodeOf(f, field.dataType, field.isPointer, Shape(children));
              && jsonFields == Fill(old(jsonFields), [n], json, bson)
              && ByName() == NameAll(old(ByName()), [n], json, bson)
      decreases children, 1
    {
      OneNodeFilled(jsonFields, ByName(), [NodeOf(f, field.dataType, field.isPointer, Shape(children))], json, bson);
      AddField(f.name, f.rule, jsonName, field, json == "" && bson == "");
      InitFields(children, jsonName, field.bsonName);
    }

    method DeclareLeaf(f: StructField, jsonName: string, field: L.Field, json: string, bson: string)
      requires jsonName == Step(json, JsonTags(f).name) && field.bsonName == Step(bson, BsonTags(f).name)
      modifies this
      ensures jsonFields == Fill(old(jsonFields), [NodeOf(f, field.dataType, field.isPointer, [])], json, bson)
      ensures ByName() == NameAll(old(ByName()), [NodeOf(f, field.dataType, field.isPointer, [])], json, bson)
    {
      OneNodeFilled(jsonFields, ByName(), [NodeOf(f, field.dataType, field.isPointer, [])], json, bson);
      AddField(f.name, f.rule, jsonName, field, json == "" && bson == "");
    }
  }

  // What the table holds

  predicate PlainName(s: string) { s != "" && '.' !in s }

  /** Names are non-empty and free of dots, and siblings differ in both their names. */
  ghost predicate Good(nodes: seq<Node>)
    decreases nodes
  {
    && (forall i | 0 <= i < |nodes| :: GoodNode(nodes[i]))
    && (forall i, k | 0 <= i < k < |nodes| :: nodes[i].json != nodes[k].json && nodes[i].bson != nodes[k].bson)
  }

  ghost predicate GoodNode(n: Node)
    decreases n
  {
    PlainName(n.json) && PlainName(n.bson) && Good(n.children)
  }

  /** A way down: one of the nodes, then one of its children, and so on. */
  ghost predicate Chain(nodes: seq<Node>, c: seq<Node>)
    decreases |c|
  {
    c != [] && c[0] in nodes && (|c| > 1 ==> Chain(c[0].children, c[1..]))
  }

  function JsonNames(c: seq<Node>): (names: seq<string>)
    ensures |names| == |c|
  {
    if c == [] then [] else [c[0].json] + JsonNames(c[1..])
  }

  function BsonNames(c: seq<Node>): (names: seq<string>)
    ensures |names| == |c|
  {
    if c == [] then [] else [c[0].bson] + BsonNames(c[1..])
  }

  function Dotted(prefix: string, names: seq<string>): string
    decreases |names|
  {
    if names == [] then prefix else Dotted(Step(prefix, names[0]), names[1..])
  }

  function FieldAt(bson: string, c: seq<Node>): L.Field
    requires c != []
  {
    L.Field(Dotted(bson, BsonNames(c)), c[|c| - 1].dataType, c[|c| - 1].isPointer)
  }

  predicate AllPlain(names: seq<string>) {
    forall i | 0 <= i < |names| :: PlainName(names[i])
  }

  // Dotted strings

  lemma {:induction false} AboveStep(prefix: string, name: string, k: string)
    requires prefix != "" && Ancestor(Step(prefix, name), k)
    ensures Ancestor(prefix, k) && prefix != k
  {
    assert Step(prefix, name)[|prefix|] == '.';
    assert Step(prefix, name)[..|prefix|] == prefix;
    assert k[..|Step(prefix, name)|] == Step(prefix, name);
  }

  lemma {:induction false} SameStep(prefix: string, a: string, b: string, k: string)
    requires PlainName(a) && PlainName(b) && |a| <= |b|
    requires Ancestor(Step(prefix, a), k) && Ancestor(Step(prefix, b), k)
    ensures a == b
  {
    var o := |Step(prefix, a)| - |a|;
    assert Step(prefix, a)[o..] == a && Step(prefix, b)[o..] == b;
    assert a == k[o..o + |a|] && b == k[o..o + |b|];
  }

  lemma {:induction false} DottedOne(prefix: string, name: string)
    ensures Dotted(prefix, [name]) == Step(prefix, name)
  {
    assert [name][1..] == [];
  }

  lemma {:induction false} DottedIsBelow(prefix: string, names: seq<string>)
    requires prefix != "" && AllPlain(names)
    ensures Ancestor(prefix, Dotted(prefix, names)) && (names != [] ==> prefix != Dotted(prefix, names))
    decreases |names|
  {
    if names != [] {
      DottedIsBelow(Step(prefix, names[0]), names[1..]);
      AboveStep(prefix, names[0], Dotted(prefix, names));
    }
  }

  /** Plain names can be read back from their dotted form. */
  lemma {:induction false} DottedIsInjective(prefix: string, a: seq<string>, b: seq<string>)
    requires AllPlain(a) && AllPlain(b) && Dotted(prefix, a) == Dotted(prefix, b)
    requires prefix != "" || (a != [] && b != [])
    ensures a == b
    decreases |a|
  {
    if prefix != "" {
      DottedIsBelow(prefix, a);
      DottedIsBelow(prefix, b);
    }
    if a != [] {
      var k := Dotted(prefix, a);
      DottedIsBelow(Step(prefix, a[0]), a[1..]);
      DottedIsBelow(Step(prefix, b[0]), b[1..]);
      if |a[0]| <= |b[0]| {
        SameStep(prefix, a[0], b[0], k);
      } else {
        SameStep(prefix, b[0], a[0], k);
      }
      DottedIsInjective(Step(prefix, a[0]), a[1..], b[1..]);
      assert a == [a[0]] + a[1..] && b == [b[0]] + b[1..];
    }
  }

  // Chains

  lemma {:induction false} ChainNamesArePlain(nodes: seq<Node>, c: seq<Node>)
    requires Good(nodes) && Chain(nodes, c)
    ensures AllPlain(JsonNames(c)) && AllPlain(BsonNames(c))
    decreases |c|
  {
    var i :| 0 <= i < |nodes| && nodes[i] == c[0];
    assert GoodNode(nodes[i]);
    if |c| > 1 {
      ChainNamesArePlain(c[0].children, c[1..]);
    }
  }

  lemma {:induction false} NamesFixChain(nodes: seq<Node>, c: seq<Node>, d: seq<Node>)
    requires Good(nodes) && Chain(nodes, c) && Chain(nodes, d)
    requires JsonNames(c) == JsonNames(d) || BsonNames(c) == BsonNames(d)
    ensures c == d
    decreases |c|
  {
    ChainNamesArePlain(nodes, c);
    ChainNamesArePlain(nodes, d);
    var i :| 0 <= i < |nodes| && nodes[i] == c[0];
    var k :| 0 <= k < |nodes| && nodes[k] == d[0];
    assert JsonNames(c)[0] == c[0].json && BsonNames(c)[0] == c[0].bson;
    assert JsonNames(d)[0] == d[0].json && BsonNames(d)[0] == d[0].bson;
    assert i == k;
    assert GoodNode(nodes[i]);
    if |c| > 1 {
      assert JsonNames(c[1..]) == JsonNames(c)[1..] && BsonNames(c[1..]) == BsonNames(c)[1..];
      assert JsonNames(d[1..]) == JsonNames(d)[1..] && BsonNames(d[1..]) == BsonNames(d)[1..];
      NamesFixChain(c[0].children, c[1..], d[1..]);
    }
    assert c == [c[0]] + c[1..] && d == [d[0]] + d[1..];
  }

  // Filling

  lemma {:induction false} FillKeeps(m: L.Fields, nodes: seq<Node>, json: string, bson: string, k: string)
    requires Good(nodes)
    requires forall i | 0 <= i < |nodes| :: !Ancestor(Step(json, nodes[i].json), k)
    ensures k in Fill(m, nodes, json, bson) <==> k in m
    ensures k in m ==> Fill(m, nodes, json, bson)[k] == m[k]
    decreases nodes
  {
    if nodes != [] {
      var n := |nodes| - 1;
      FillKeeps(m, nodes[..n], json, bson, k);
      FillNodeKeeps(Fill(m, nodes[..n], json, bson), nodes[n], json, bson, k);
    }
  }

  lemma {:induction false} FillNodeKeeps(m: L.Fields, n: Node, json: string, bson: string, k: string)
    requires GoodNode(n) && !Ancestor(Step(json, n.json), k)
    ensures k in FillNode(m, n, json, bson) <==> k in m
    ensures k in m ==> FillNode(m, n, json, bson)[k] == m[k]
    decreases n
  {
    var (j, b) := (Step(json, n.json), Step(bson, n.bson));
    ChildrenBelow(n, j, k);
    FillKeeps(m[j := L.Field(b, n.dataType, n.isPointer)], n.children, j, b, k);
  }

  lemma {:induction false} ChildrenBelow(n: Node, j: string, k: string)
    requires j != "" && (!Ancestor(j, k) || j == k)
    ensures forall i | 0 <= i < |n.children| :: !Ancestor(Step(j, n.children[i].json), k)
  {
    forall i | 0 <= i < |n.children| && Ancestor(Step(j, n.children[i].json), k) ensures false {
      AboveStep(j, n.children[i].json, k);
    }
  }

  /** Every chain is declared, under its JSON names, with its BSON names. */
  lemma {:induction false} ChainIsDeclared(m: L.Fields, nodes: seq<Node>, json: string, bson: string, c: seq<Node>)
    requires Good(nodes) && Chain(nodes, c)
    ensures var k := Dotted(json, JsonNames(c));
            k in Fill(m, nodes, json, bson) && Fill(m, nodes, json, bson)[k] == FieldAt(bson, c)
    decreases nodes
  {
    var n := |nodes| - 1;
    var last, before := nodes[n], Fill(m, nodes[..n], json, bson);
    ChainNamesArePlain(nodes, c);
    assert GoodNode(last);
    if c[0] == last {
      NodeChainIsDeclared(before, last, json, bson, c);
    } else {
      var i :| 0 <= i < |nodes| && nodes[i] == c[0];
      assert nodes[..n][i] == c[0] && c[0].json != last.json;
      ChainIsDeclared(m, nodes[..n], json, bson, c);
      var k := Dotted(json, JsonNames(c));
      assert JsonNames(c)[0] == c[0].json && JsonNames(c)[1..] == JsonNames(c[1..]);
      DottedIsBelow(Step(json, c[0].json), JsonNames(c)[1..]);
      if Ancestor(Step(json, last.json), k) {
        if |last.json| <= |c[0].json| {
          SameStep(json, last.json, c[0].json, k);
        } else {
          SameStep(json, c[0].json, last.json, k);
        }
      }
      FillNodeKeeps(before, last, json, bson, k);
    }
  }

  lemma {:induction false} NodeChainIsDeclared(m: L.Fields, n: Node, json: string, bson: string, c: seq<Node>)
    requires GoodNode(n) && c != [] && c[0] == n && (|c| > 1 ==> Chain(n.children, c[1..]))
    ensures var k := Dotted(json, JsonNames(c));
            k in FillNode(m, n, json, bson) && FillNode(m, n, json, bson)[k] == FieldAt(bson, c)
    decreases n
  {
    var (j, b) := (Step(json, n.json), Step(bson, n.bson));
    var m' := m[j := L.Field(b, n.dataType, n.isPointer)];
    if |c| > 1 {
      ChainIsDeclared(m', n.children, j, b, c[1..]);
      assert Dotted(json, JsonNames(c)) == Dotted(j, JsonNames(c[1..]));
      assert Dotted(bson, BsonNames(c)) == Dotted(b, BsonNames(c[1..]));
    } else {
      ChildrenBelow(n, j, j);
      FillKeeps(m', n.children, j, b, j);
      assert JsonNames(c) == [n.json] && BsonNames(c) == [n.bson];
      DottedOne(json, n.json);
      DottedOne(bson, n.bson);
    }
  }

  /** Nothing else is declared. */
  lemma {:induction false} DeclaredIsChain(m: L.Fields, nodes: seq<Node>, json: string, bson: string, k: string)
    returns (c: seq<Node>)
    requires k in Fill(m, nodes, json, bson) && k !in m
    ensures Chain(nodes, c) && k == Dotted(json, JsonNames(c))
    decreases nodes
  {
    var n := |nodes| - 1;
    var before := Fill(m, nodes[..n], json, bson);
    if k in before {
      c := DeclaredIsChain(m, nodes[..n], json, bson, k);
    } else {
      c := DeclaredIsNodeChain(before, nodes[n], json, bson, k);
    }
  }

  lemma {:induction false} DeclaredIsNodeChain(m: L.Fields, n: Node, json: string, bson: string, k: string)
    returns (c: seq<Node>)
    requires k in FillNode(m, n, json, bson) && k !in m
    ensures c != [] && c[0] == n && (|c| > 1 ==> Chain(n.children, c[1..])) && k == Dotted(json, JsonNames(c))
    decreases n
  {
    var (j, b) := (Step(json, n.json), Step(bson, n.bson));
    var m' := m[j := L.Field(b, n.dataType, n.isPointer)];
    if k in m' {
      c := [n];
      assert c[1..] == [];
    } else {
      var rest := DeclaredIsChain(m', n.children, j, b, k);
      c := [n] + rest;
      assert c[1..] == rest;
    }
  }

  // The theorems

  /** The table NewSchema builds for a struct. */
  function JsonTable(fields: seq<StructField>): L.Fields { Fill(map[], Shape(fields), "", "") }

  /** The table is exactly the chains of the struct, JSON path to parallel BSON path. */
  lemma {:induction false} TableIsChains(fields: seq<StructField>)
    requires Good(Shape(fields))
    ensures forall c | Chain(Shape(fields), c) ::
              && Dotted("", JsonNames(c)) in JsonTable(fields)
              && JsonTable(fields)[Dotted("", JsonNames(c))] == FieldAt("", c)
    ensures forall k | k in JsonTable(fields) :: exists c :: Chain(Shape(fields), c) && k == Dotted("", JsonNames(c))
  {
    forall c | Chain(Shape(fields), c)
      ensures && Dotted("", JsonNames(c)) in JsonTable(fields)
              && JsonTable(fields)[Dotted("", JsonNames(c))] == FieldAt("", c)
    {
      ChainIsDeclared(map[], Shape(fields), "", "", c);
    }
    forall k | k in JsonTable(fields) ensures exists c :: Chain(Shape(fields), c) && k == Dotted("", JsonNames(c)) {
      var c := DeclaredIsChain(map[], Shape(fields), "", "", k);
    }
  }

  /** Different JSON paths have different BSON paths. */
  lemma {:induction false} PathsMapInjectively(fields: seq<StructField>, k: string, k': string)
    requires Good(Shape(fields)) && k in JsonTable(fields) && k' in JsonTable(fields)
    requires JsonTable(fields)[k].bsonName == JsonTable(fields)[k'].bsonName
    ensures k == k'
  {
    var nodes := Shape(fields);
    var c := DeclaredIsChain(map[], nodes, "", "", k);
    var d := DeclaredIsChain(map[], nodes, "", "", k');
    ChainIsDeclared(map[], nodes, "", "", c);
    ChainIsDeclared(map[], nodes, "", "", d);
    ChainNamesArePlain(nodes, c);
    ChainNamesArePlain(nodes, d);
    DottedIsInjective("", BsonNames(c), BsonNames(d));
    NamesFixChain(nodes, c, d);
  }

  lemma {:induction false} DottedLast(prefix: string, names: seq<string>)
    requires names != []
    ensures Dotted(prefix, names) == Step(Dotted(prefix, names[..|names| - 1]), names[|names| - 1])
    decreases |names|
  {
    if |names| > 1 {
      DottedLast(Step(prefix, names[0]), names[1..]);
      assert names[1..][..|names| - 2] == names[..|names| - 1][1..];
    }
  }

  lemma {:induction false} ChainFront(nodes: seq<Node>, c: seq<Node>)
    requires Chain(nodes, c) && |c| > 1
    ensures Chain(nodes, c[..|c| - 1])
    ensures JsonNames(c[..|c| - 1]) == JsonNames(c)[..|c| - 1] && BsonNames(c[..|c| - 1]) == BsonNames(c)[..|c| - 1]
    ensures JsonNames(c)[|c| - 1] == c[|c| - 1].json && BsonNames(c)[|c| - 1] == c[|c| - 1].bson
    decreases |c|
  {
    var front := c[..|c| - 1];
    assert front[1..] == c[1..][..|c| - 2];
    if |c| > 2 {
      ChainFront(c[0].children, c[1..]);
    } else {
      assert c[2..] == [] && c[1..][1..] == [] && front[1..] == [];
    }
  }

  /** Below the top level every declared path has its parent declared, and the BSON path of the parent is its own
      BSON path without the last name. */
  lemma {:induction false} TableIsPrefixClosed(fields: seq<StructField>, k: string)
    requires Good(Shape(fields)) && k in JsonTable(fields)
    ensures PlainName(k) || exists parent, json, bson ::
              && PlainName(json) && PlainName(bson) && parent in JsonTable(fields)
              && k == Step(parent, json)
              && JsonTable(fields)[k].bsonName == Step(JsonTable(fields)[parent].bsonName, bson)
  {
    var nodes := Shape(fields);
    var c := DeclaredIsChain(map[], nodes, "", "", k);
    ChainIsDeclared(map[], nodes, "", "", c);
    ChainNamesArePlain(nodes, c);
    if |c| > 1 {
      var front, last := c[..|c| - 1], c[|c| - 1];
      ChainFront(nodes, c);
      ChainIsDeclared(map[], nodes, "", "", front);
      DottedLast("", JsonNames(c));
      DottedLast("", BsonNames(c));
      var parent := Dotted("", JsonNames(front));
      assert PlainName(JsonNames(c)[|c| - 1]) && PlainName(BsonNames(c)[|c| - 1]);
      assert k == Step(parent, last.json);
      assert JsonTable(fields)[k].bsonName == Step(JsonTable(fields)[parent].bsonName, last.bson);
    } else {
      assert JsonNames(c) == [c[0].json];
      assert PlainName(JsonNames(c)[0]);
    }
  }

  /** The chain is declared and the path is its own or goes on below it. */
  ghost predicate Through(nodes: seq<Node>, c: seq<Node>, name: string) {
    Chain(nodes, c) && Ancestor(Dotted("", JsonNames(c)), name)
  }

  /** The field a path resolves to is that of the longest chain the path goes through. */
  lemma {:induction false} ResolvedChain(fields: seq<StructField>, name: string) returns (c: seq<Node>)
    requires Good(Shape(fields)) && Resolve(name, JsonTable(fields)).Some?
    ensures Through(Shape(fields), c, name)
    ensures Resolve(name, JsonTable(fields)) == Some(FieldAt("", c))
    ensures forall d | Through(Shape(fields), d, name) ::
              |Dotted("", JsonNames(d))| <= |Dotted("", JsonNames(c))|
  {
    var nodes, table := Shape(fields), JsonTable(fields);
    ResolveIsLongestAncestor(name, table);
    var p :| && Ancestor(p, name) && p in table && Resolve(name, table) == Some(table[p])
             && forall p' :: Ancestor(p', name) && p' in table ==> |p'| <= |p|;
    c := DeclaredIsChain(map[], nodes, "", "", p);
    ChainIsDeclared(map[], nodes, "", "", c);
    forall d | Through(nodes, d, name)
      ensures |Dotted("", JsonNames(d))| <= |p|
    {
      ChainIsDeclared(map[], nodes, "", "", d);
    }
  }

  /** A path resolves exactly when it goes through some chain. */
  lemma {:induction false} ResolvesIff(fields: seq<StructField>, name: string)
    requires Good(Shape(fields))
    ensures Resolve(name, JsonTable(fields)).Some? <==> exists c :: Through(Shape(fields), c, name)
  {
    var nodes, table := Shape(fields), JsonTable(fields);
    if Resolve(name, table).Some? {
      var c := ResolvedChain(fields, name);
      assert exists d :: Through(Shape(fields), d, name);
    } else {
      ResolveIsLongestAncestor(name, table);
      forall c | Through(nodes, c, name) ensures false {
        ChainIsDeclared(map[], nodes, "", "", c);
      }
    }
  }

  /** So over such a schema no two field keys of a `where` share a stored name: one of the conditions under which
      compilation is correct comes for free. */
  lemma {:induction false} SchemaGivesDistinctNames(fields: seq<StructField>, w: L.Where, env: L.Env)
    requires Good(Shape(fields)) && env.fields == JsonTable(fields)
    ensures CompilerShape.DistinctNames(w, env)
  {
    forall k <- w.m.Keys, k' <- w.m.Keys |
      && CompilerShape.Declared(k, env) && CompilerShape.Declared(k', env)
      && env.fields[L.Text(k)].bsonName == env.fields[L.Text(k')].bsonName
      ensures k == k'
    {
      PathsMapInjectively(fields, L.Text(k), L.Text(k'));
    }
  }

  // Pointers and skipped names

  /** The pointer mark is set for dates and nested structs only: never for an object id. */
  lemma {:induction false} NoPointerIds(f: StructField)
    requires Indirect(f.typ).kind.List? || Indirect(f.typ).kind.Plain? || Indirect(f.typ).kind.Pointer?
    ensures forall n | n in FieldShape(f) :: !n.isPointer
  {
  }

  /** So a null operand for an object id of a schema is never converted, even where the field may be nil. */
  lemma {:induction false} NullIdIsDropped(f: StructField, json: string, bson: string, key: L.Key, env: L.Env)
    requires Indirect(f.typ).kind.List? && Indirect(f.typ).name == L.DT_OBJECT_ID
    requires !key.Inq? && !key.Nin?
    ensures var k := Step(json, JsonTags(f).name);
            && k in Fill(map[], FieldShape(f), json, bson)
            && Fill(map[], FieldShape(f), json, bson)[k].dataType == L.DT_OBJECT_ID
            && W.Convert(Fill(map[], FieldShape(f), json, bson)[k], key, L.Null, env) == None
  {
    assert FieldShape(f) == [FieldShape(f)[0]];
    FillOne(map[], FieldShape(f)[0], json, bson);
  }

  lemma {:induction false} FillDeclares(m: L.Fields, nodes: seq<Node>, json: string, bson: string)
    ensures m.Keys <= Fill(m, nodes, json, bson).Keys
    ensures forall n <- nodes :: Step(json, n.json) in Fill(m, nodes, json, bson)
    decreases nodes
  {
    if nodes != [] {
      var end := |nodes| - 1;
      FillDeclares(m, nodes[..end], json, bson);
      NodeDeclares(Fill(m, nodes[..end], json, bson), nodes[end], json, bson);
    }
  }

  lemma {:induction false} NodeDeclares(m: L.Fields, n: Node, json: string, bson: string)
    ensures m.Keys + {Step(json, n.json)} <= FillNode(m, n, json, bson).Keys
    ensures forall c <- n.children :: Step(Step(json, n.json), c.json) in FillNode(m, n, json, bson)
    decreases n
  {
    var (j, b) := (Step(json, n.json), Step(bson, n.bson));
    FillDeclares(m[j := L.Field(b, n.dataType, n.isPointer)], n.children, j, b);
  }

  /** A field that is neither inlined nor left out as a model or a relation. */
  predicate HasOwnName(f: StructField) {
    var t := Indirect(f.typ);
    match t.kind
    case Struct(_) => !BsonTags(f).inline && !t.model && !f.relation
    case List(elem) => t.name == L.DT_OBJECT_ID || (!elem.model && !f.relation)
    case _ => true
  }

  lemma {:induction false} OwnNode(fields: seq<StructField>, f: StructField) returns (n: Node)
    requires f in fields && HasOwnName(f)
    ensures FieldShape(f) == [n] && n in Shape(fields) && n.json == JsonTags(f).name
    decreases fields
  {
    var end := |fields| - 1;
    if f == fields[end] {
      n := FieldShape(f)[0];
      assert FieldShape(f) == [n];
    } else {
      n := OwnNode(fields[..end], f);
    }
  }

  /** The tag "-" gives the empty name, and a field that carries it is declared all the
      same, at any depth: under its parent's path and a dot, or under "" at the top. The
      fields of a struct that carries it at the top are declared as if they stood beside
      it. */
  lemma {:induction false} DashIsEmptyName(m: L.Fields, fields: seq<StructField>, f: StructField, json: string,
          bson: string)
    requires f in fields && f.json == "-" && HasOwnName(f)
    ensures Step(json, "") in Fill(m, Shape(fields), json, bson)
    ensures json == "" && Indirect(f.typ).kind.Struct? ==>
              forall g <- Indirect(f.typ).kind.fields | HasOwnName(g) ::
                JsonTags(g).name in Fill(m, Shape(fields), json, bson)
  {
    var n := OwnNode(fields, f);
    FillDeclares(m, Shape(fields), json, bson);
    if json == "" && Indirect(f.typ).kind.Struct? {
      var inner := Indirect(f.typ).kind.fields;
      assert n.children == Shape(inner);
      forall g <- inner | HasOwnName(g) ensures JsonTags(g).name in Fill(m, Shape(fields), json, bson) {
        var c := OwnNode(inner, g);
        ChildIsDeclared(m, Shape(fields), n, c, json, bson);
        StepsToTop(c.json);
      }
    }
  }

  lemma StepsToTop(name: string)
    ensures Step(Step("", ""), name) == name
  {
    assert Step("", "") == "";
  }

  lemma {:induction false} ChildIsDeclared(m: L.Fields, nodes: seq<Node>, n: Node, c: Node, json: string, bson: string)
    requires n in nodes && c in n.children
    ensures Step(Step(json, n.json), c.json) in Fill(m, nodes, json, bson)
    decreases nodes
  {
    var end := |nodes| - 1;
    var before := Fill(m, nodes[..end], json, bson);
    NodeDeclares(before, nodes[end], json, bson);
    if n != nodes[end] {
      ChildIsDeclared(m, nodes[..end], n, c, json, bson);
    }
  }

  // Fields that are always or never to be returned

  lemma {:induction false} NoNamesBelow(t: Names, nodes: seq<Node>, json: string, bson: string)
    requires json != "" || bson != ""
    ensures NameAll(t, nodes, json, bson) == t
    decreases nodes
  {
    if nodes != [] {
      var n := nodes[|nodes| - 1];
      NoNamesBelow(t, nodes[..|nodes| - 1], json, bson);
      NoNamesBelow(t, n.children, Step(json, n.json), Step(bson, n.bson));
    }
  }

  predicate Ruled(nodes: seq<Node>, rule: Rule, json: string) { exists n <- nodes :: n.rule == rule && n.json == json }

  /** The table of one rule: later fields of a name overwrite earlier ones. */
  function TableOf(nodes: seq<Node>, rule: Rule): map<string, string>
    decreases |nodes|
  {
    if nodes == [] then map[]
    else
      var (front, last) := (TableOf(nodes[..|nodes| - 1], rule), nodes[|nodes| - 1]);
      if last.rule == rule then front[last.name := last.json] else front
  }

  lemma {:induction false} TablesOfRules(nodes: seq<Node>)
    requires Good(nodes)
    ensures var t := NameAll(NO_NAMES, nodes, "", "");
            t.required == TableOf(nodes, Always) && t.banned == TableOf(nodes, Never)
    decreases nodes
  {
    if nodes != [] {
      var (front, last) := (nodes[..|nodes| - 1], nodes[|nodes| - 1]);
      TablesOfRules(front);
      TopName(NameAll(NO_NAMES, front, "", ""), last);
    }
  }

  lemma {:induction false} TopName(t: Names, n: Node)
    requires GoodNode(n)
    ensures NameNode(t, n, "", "") == AddName(t, n, n.json, FieldOf(n, n.bson))
  {
    assert Step("", n.json) == n.json && Step("", n.bson) == n.bson;
    NoNamesBelow(AddName(t, n, n.json, FieldOf(n, n.bson)), n.children, n.json, n.bson);
  }

  predicate JsonDiffers(nodes: seq<Node>) {
    forall i, k | 0 <= i < k < |nodes| :: nodes[i].json != nodes[k].json
  }

  /** No two fields have the same name and the same rule. */
  predicate RuleDiffers(nodes: seq<Node>, rule: Rule) {
    forall i, k | 0 <= i < k < |nodes| :: nodes[i].rule == nodes[k].rule == rule ==> nodes[i].name != nodes[k].name
  }

  /** Every entry of the table comes from a field. */
  lemma {:induction false} EntryOf(nodes: seq<Node>, rule: Rule, name: string) returns (i: nat)
    requires name in TableOf(nodes, rule)
    ensures i < |nodes| && nodes[i].rule == rule && nodes[i].name == name && nodes[i].json == TableOf(nodes, rule)[name]
    decreases |nodes|
  {
    var end := |nodes| - 1;
    if nodes[end].rule == rule && nodes[end].name == name {
      i := end;
    } else {
      i := EntryOf(nodes[..end], rule, name);
    }
  }

  /** Of two fields with the same name and rule, the earlier is lost. */
  lemma {:induction false} EarlierIsLost(nodes: seq<Node>, rule: Rule, i: nat, k: nat)
    requires JsonDiffers(nodes) && i < k < |nodes|
    requires nodes[i].rule == nodes[k].rule == rule && nodes[i].name == nodes[k].name
    ensures nodes[i].json !in TableOf(nodes, rule).Values
    decreases |nodes|
  {
    var end := |nodes| - 1;
    if k < end {
      EarlierIsLost(nodes[..end], rule, i, k);
    } else if nodes[i].json in TableOf(nodes, rule).Values {
      var name :| name in TableOf(nodes, rule) && TableOf(nodes, rule)[name] == nodes[i].json;
      var x := EntryOf(nodes, rule, name);
    }
  }

  lemma {:induction false} NoneIsLost(nodes: seq<Node>, rule: Rule)
    requires RuleDiffers(nodes, rule)
    ensures forall n <- nodes :: n.rule == rule ==> n.json in TableOf(nodes, rule).Values
    decreases |nodes|
  {
    if nodes != [] {
      var (front, last) := (nodes[..|nodes| - 1], nodes[|nodes| - 1]);
      NoneIsLost(front, rule);
      if last.rule == rule {
        if last.name in TableOf(front, rule) {
          var x := EntryOf(front, rule, last.name);
        }
        FreshValue(TableOf(front, rule), last.name, last.json);
      }
      assert nodes == front + [last];
    }
  }

  lemma OnlyRuled(nodes: seq<Node>, rule: Rule)
    ensures forall json :: json in TableOf(nodes, rule).Values ==> Ruled(nodes, rule, json)
  {
    forall json | json in TableOf(nodes, rule).Values ensures Ruled(nodes, rule, json) {
      var name :| name in TableOf(nodes, rule) && TableOf(nodes, rule)[name] == json;
      var i := EntryOf(nodes, rule, name);
    }
  }

  /** The table of a rule holds just the fields with the rule exactly when no two of them
      have the same name. */
  lemma TableIsRuled(nodes: seq<Node>, rule: Rule)
    requires JsonDiffers(nodes)
    ensures (forall json :: json in TableOf(nodes, rule).Values <==> Ruled(nodes, rule, json)) <==>
            RuleDiffers(nodes, rule)
  {
    OnlyRuled(nodes, rule);
    if RuleDiffers(nodes, rule) {
      NoneIsLost(nodes, rule);
    } else {
      var i, k :| 0 <= i < k < |nodes| && nodes[i].rule == nodes[k].rule == rule && nodes[i].name == nodes[k].name;
      EarlierIsLost(nodes, rule, i, k);
      assert Ruled(nodes, rule, nodes[i].json);
    }
  }

  ghost predicate TagsKept(t: Names, nodes: seq<Node>) {
    && (forall json :: json in t.required.Values <==> Ruled(nodes, Always, json))
    && (forall json :: json in t.banned.Values <==> Ruled(nodes, Never, json))
  }

  /** The two tables hold the JSON names of just the top-level fields with those tags exactly
      when no two top-level fields share both their name and one of the tags. */
  lemma RulesAreTags(nodes: seq<Node>)
    requires Good(nodes)
    ensures TagsKept(NameAll(NO_NAMES, nodes, "", ""), nodes) <==>
            RuleDiffers(nodes, Always) && RuleDiffers(nodes, Never)
  {
    TablesOfRules(nodes);
    TableIsRuled(nodes, Always);
    TableIsRuled(nodes, Never);
  }

  lemma FreshValue(m: map<string, string>, k: string, v: string)
    requires k !in m
    ensures m[k := v].Values == m.Values + {v}
  {
    forall x | x in m.Values ensures x in m[k := v].Values {
      var i :| i in m && m[i] == x;
      assert m[k := v][i] == x;
    }
    assert m[k := v][k] == v;
  }

  /** Of two fields with the same name, one of them in an inlined struct, only the later
      one's tag is kept. */
  lemma LaterNameWins(a: Node, b: Node)
    requires GoodNode(a) && GoodNode(b) && a.name == b.name && a.json != b.json && a.rule == b.rule == Never
    ensures NameAll(NO_NAMES, [a, b], "", "").banned.Values == {b.json}
  {
    var t := AddName(NO_NAMES, a, a.json, FieldOf(a, a.bson));
    assert [a, b][..1] == [a] && [a][..0] == [];
    TopName(NO_NAMES, a);
    TopName(t, b);
    assert NameAll(NO_NAMES, [a], "", "") == t by { assert NameAll(NO_NAMES, [], "", "") == NO_NAMES; }
    var kept := AddName(t, b, b.json, FieldOf(b, b.bson)).banned;
    assert kept == map[b.name := b.json] && kept[b.name] == b.json;
    assert NameAll(NO_NAMES, [a, b], "", "").banned == kept;
    assert forall x <- kept.Values :: x == b.json;
  }

  /** A schema gives a projection plain names to work with, and keeps back just the fields
      that are never to be returned exactly when no two of them have the same name. */
  lemma SchemaGivesPlainRules(fields: seq<StructField>, env: L.Env)
    requires Good(Shape(fields))
    requires forall n <- Shape(fields) :: !n.rule.Unruled? ==> n.json != Projections.STORED_ID
    requires var t := NameAll(NO_NAMES, Shape(fields), "", "");
             env.required == t.required.Values && env.banned == t.banned.Values
    ensures Projections.PlainRules(env)
    ensures (forall json :: json in env.required <==> Ruled(Shape(fields), Always, json)) <==>
            RuleDiffers(Shape(fields), Always)
    ensures (forall json :: json in env.banned <==> Ruled(Shape(fields), Never, json)) <==>
            RuleDiffers(Shape(fields), Never)
  {
    var nodes := Shape(fields);
    TablesOfRules(nodes);
    TableIsRuled(nodes, Always);
    TableIsRuled(nodes, Never);
    RuledArePlain(nodes, env);
  }

  lemma RuledArePlain(nodes: seq<Node>, env: L.Env)
    requires Good(nodes) && forall n <- nodes :: !n.rule.Unruled? ==> n.json != Projections.STORED_ID
    requires env.required == TableOf(nodes, Always).Values && env.banned == TableOf(nodes, Never).Values
    ensures Projections.PlainRules(env)
  {
    OnlyRuled(nodes, Always);
    OnlyRuled(nodes, Never);
    forall json <- env.required + env.banned ensures Projections.PlainName(json) {
      var n :| n in nodes && n.json == json && !n.rule.Unruled?;
      assert GoodNode(n);
    }
  }
}
