/** What a schema declares, read off the fields of a struct and their tags. */
module SchemaFields {
  import opened Strings
  import opened Schemas

  // ----- tags -----

  /** What stands before the first comma of a tag. */
  ghost predicate Leads(first: string, tag: string) { ',' !in first && (tag == first || first + "," <= tag) }

  /** The name a tag gives: what leads it, or the field's own when that is empty; none for "-". */
  ghost predicate Names(tag: string, own: string, name: string) {
    if tag == "-" then name == ""
    else exists first :: Leads(first, tag) && name == if first != "" then first else own
  }

  lemma TagNames(own: string, tag: string, name: string)
    ensures TagsOf(own, tag).name == name <==> Names(tag, own, name)
  {
    if tag != "-" {
      var first := Split(tag, ',')[0];
      FirstPartLeads(tag);
      forall other | Leads(other, tag) ensures other == first {
        OneLeads(first, other, tag);
      }
      assert Names(tag, own, TagsOf(own, tag).name);
    }
  }

  lemma FirstPartLeads(tag: string)
    ensures Leads(Split(tag, ',')[0], tag)
  {
    JoinOfSplit(tag, ',');
    JoinStarts(Split(tag, ','));
  }

  lemma {:induction false} JoinStarts(parts: seq<string>)
    requires parts != [] && ',' !in parts[0]
    ensures Leads(parts[0], Join(parts, ','))
  {
    if |parts| > 1 { JoinStarts(parts[..|parts| - 1]); }
  }

  lemma OneLeads(a: string, b: string, tag: string)
    requires Leads(a, tag) && Leads(b, tag)
    ensures a == b
  {
    assert a == tag[..|a|] && b == tag[..|b|];
    assert forall i | 0 <= i < |a| :: a[i] == tag[i] && tag[i] != ',';
    assert forall i | 0 <= i < |b| :: b[i] == tag[i] && tag[i] != ',';
    assert (|a| < |tag| ==> tag[|a|] == ',') && (|b| < |tag| ==> tag[|b|] == ',');
  }

  /** The other parts of a tag are switches. */
  lemma TagSwitches(own: string, tag: string)
    ensures var (st, parts) := (TagsOf(own, tag), if tag == "-" then [] else Split(tag, ','));
            && (st.inline <==> "inline" in parts) && (st.omitEmpty <==> "omitempty" in parts)
            && (st.minSize <==> "minsize" in parts) && (st.truncate <==> "truncate" in parts)
            && (st.required <==> "required" in parts) && (st.skip <==> tag == "-")
  {}

  // ----- fields -----

  /** A struct, or what one pointer points to, whose fields count as if they stood in its place. */
  predicate Inlined(f: StructField) {
    && Behind(f.typ).kind.Struct? && f.bson != "-" && "inline" in Split(f.bson, ',')
  }

  function Behind(t: GoType): GoType { match t.kind case Pointer(target) => target case _ => t }

  /** Among the fields, or among those of a struct that is inlined, at any depth. */
  ghost predicate Beside(fields: seq<StructField>, f: StructField)
    decreases fields
  {
    exists i | 0 <= i < |fields| :: FieldBeside(fields[i], f)
  }

  ghost predicate FieldBeside(g: StructField, f: StructField)
    decreases g
  {
    if Inlined(g) then
      match Behind(g.typ).kind
      case Struct(inner) => Beside(inner, f)
      case _ => false
    else g == f
  }

  /** What the entry for a field is: models and relations have none. */
  ghost predicate Declares(f: StructField, n: Node) {
    && n.name == f.name && n.rule == f.rule
    && Names(f.json, f.lowered, n.json) && Names(f.bson, f.lowered, n.bson)
    && var t := Behind(f.typ);
       match t.kind
       case DateStruct => n.dataType == "Date" && n.isPointer == f.typ.kind.Pointer? && n.children == []
       case Struct(fields) =>
         && !t.model && !f.relation
         && n.dataType == t.name && n.isPointer == f.typ.kind.Pointer? && n.children == Shape(fields)
       case List(elem) =>
         if t.name == "ObjectID" then n.dataType == "ObjectID" && !n.isPointer && n.children == []
         else && !elem.model && !f.relation && n.dataType == elem.name && !n.isPointer
              && n.children == if elem.kind.Struct? then Shape(elem.kind.fields) else []
       case _ => n.dataType == t.name && !n.isPointer && n.children == []
  }

  ghost predicate Declared(fields: seq<StructField>, n: Node) { exists f :: Beside(fields, f) && Declares(f, n) }

  ghost predicate DeclaredBy(g: StructField, n: Node) { exists f :: FieldBeside(g, f) && Declares(f, n) }

  /** On each level a schema declares just these. */
  lemma {:induction false} ShapeIsDeclared(fields: seq<StructField>, n: Node)
    ensures n in Shape(fields) <==> Declared(fields, n)
    decreases fields
  {
    if fields != [] {
      var (front, last) := (fields[..|fields| - 1], fields[|fields| - 1]);
      ShapeIsDeclared(front, n);
      FieldIsDeclared(last, n);
      LastBeside(front, last, n);
      assert fields == front + [last];
    }
  }

  lemma LastBeside(front: seq<StructField>, last: StructField, n: Node)
    ensures Declared(front + [last], n) <==> Declared(front, n) || DeclaredBy(last, n)
  {
    var fields := front + [last];
    assert fields[|front|] == last && forall i | 0 <= i < |front| :: fields[i] == front[i];
    forall f ensures Beside(fields, f) <==> Beside(front, f) || FieldBeside(last, f) {
      if Beside(front, f) {
        var i :| 0 <= i < |front| && FieldBeside(front[i], f);
        assert FieldBeside(fields[i], f);
      }
    }
  }

  lemma {:induction false} FieldIsDeclared(g: StructField, n: Node)
    ensures n in FieldShape(g) <==> DeclaredBy(g, n)
    decreases g
  {
    assert Behind(g.typ) == Indirect(g.typ);
    if Inlined(g) {
      match Behind(g.typ).kind
      case Struct(inner) => ShapeIsDeclared(inner, n);
      case _ =>
    } else {
      assert DeclaredBy(g, n) <==> Declares(g, n) by { assert FieldBeside(g, g); }
      TagNames(g.lowered, g.json, n.json);
      TagNames(g.lowered, g.bson, n.bson);
    }
  }
}
