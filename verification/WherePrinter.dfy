/** Printing a parsed `where` back to JSON and reading it again. */
module WherePrinter {
  import opened Wrappers
  import opened Lbq
  import opened WhereCompiler
  import opened QueryParser

  /** How a value prints. A nil slice prints as null. */
  function PrintedValue(v: Value): Json
    decreases v
  {
    match v
    case Bool(b) => JBool(b)
    case Num(n) => JNum(n)
    case Str(s) => JStr(s)
    case Slice(items, _) => JArr(PrintedValues(items))
    case _ => JNull
  }

  function PrintedValues(items: seq<Value>): (r: seq<Json>)
    ensures |r| == |items| && forall i :: 0 <= i < |r| ==> r[i] == PrintedValue(items[i])
    decreases items
  {
    if items == [] then []
    else PrintedValues(items[..|items| - 1]) + [PrintedValue(items[|items| - 1])]
  }

  /** Values the parser produces. */
  predicate FromJson(v: Value)
    decreases v
  {
    match v
    case Slice(items, dynamic) => dynamic && items != [] && forall i :: 0 <= i < |items| ==> FromJson(items[i])
    case NilSlice(dynamic) => dynamic
    case _ => v.Null? || v.Bool? || v.Num? || v.Str?
  }

  lemma {:induction false} RawIsFromJson(j: Json)
    ensures FromJson(RawValue(j))
    decreases j
  {
    if j.JArr? {
      forall i | 0 <= i < |j.items| ensures FromJson(RawValue(j.items[i])) { RawIsFromJson(j.items[i]); }
    }
  }

  lemma {:induction false} ValueRoundTrip(v: Value)
    requires FromJson(v)
    ensures RawValue(PrintedValue(v)) == v <==> NilFree(v)
    decreases v
  {
    if v.Slice? {
      var back := RawValues(PrintedValues(v.items));
      forall i | 0 <= i < |v.items| ensures back[i] == v.items[i] <==> NilFree(v.items[i]) {
        ValueRoundTrip(v.items[i]);
      }
    }
  }

  // ----- where trees -----

  /** j is an object with one member for each key of w, in any order. */
  ghost predicate PrintsWhere(w: Where, j: Json)
    decreases w
  {
    && j.JObj?
    && DistinctKeys(j.members)
    && (forall i :: 0 <= i < |j.members| ==>
          j.members[i].key in w.m && PrintsNode(w.m[j.members[i].key], j.members[i].value))
    && (forall k :: k in w.m ==> HasKey(j.members, k))
  }

  ghost predicate PrintsNode(n: Node, j: Json)
    decreases n
  {
    match n
    case Atom(v) => j == PrintedValue(v)
    case Sub(w) => PrintsWhere(w, j)
    case Group(ws) => j.JArr? && |j.items| == |ws| && forall i :: 0 <= i < |ws| ==> PrintsWhere(ws[i], j.items[i])
  }

  ghost predicate OperandsFromJson(w: Where)
    decreases w
  {
    forall k :: k in w.m ==> NodeFromJson(w.m[k])
  }

  ghost predicate NodeFromJson(n: Node)
    decreases n
  {
    match n
    case Atom(v) => FromJson(v)
    case Sub(w) => OperandsFromJson(w)
    case Group(ws) => forall i :: 0 <= i < |ws| ==> OperandsFromJson(ws[i])
  }

  /** No nil slice in operand position anywhere; the parser makes one of every empty list. */
  ghost predicate NoNilOperand(w: Where)
    decreases w
  {
    forall k :: k in w.m ==> NodeNilFree(w.m[k])
  }

  ghost predicate NodeNilFree(n: Node)
    decreases n
  {
    match n
    case Atom(v) => NilFree(v)
    case Sub(w) => NoNilOperand(w)
    case Group(ws) => AllNilFree(ws)
  }

  ghost predicate AllNilFree(ws: seq<Where>)
    decreases ws
  {
    forall i :: 0 <= i < |ws| ==> NoNilOperand(ws[i])
  }

  lemma {:induction false} ParsedOperands(j: Json)
    ensures ParseWhere(j).Some? ==> OperandsFromJson(ParseWhere(j).value)
    decreases j, 1
  {
    if j.JObj? {
      forall key ensures FromJson(RawOption(Get(j.members, key))) {
        if Get(j.members, key).Some? { RawIsFromJson(Get(j.members, key).value); }
      }
      if Get(j.members, Like).None? && Get(j.members, NLike).None? {
        MemberOperands(j.members);
      } else {
        var key := if Get(j.members, Like).Some? then Like else NLike;
        RawIsFromJson(Get(j.members, key).value);
      }
    }
  }

  lemma {:induction false} MemberOperands(ms: seq<Member>)
    ensures ParseMembers(ms).Some? ==> OperandsFromJson(ParseMembers(ms).value)
    decreases ms
  {
    if ms != [] {
      MemberOperands(ms[..|ms| - 1]);
      NodeOperands(ms[|ms| - 1]);
    }
  }

  lemma {:induction false} NodeOperands(m: Member)
    ensures ParseMember(m).Some? ==> NodeFromJson(ParseMember(m).value)
    decreases m
  {
    var v := m.value;
    RawIsFromJson(v);
    if v.JObj? {
      ParsedOperands(v);
    } else if v.JArr? {
      ListOperands(v.items);
    }
  }

  lemma {:induction false} ListOperands(items: seq<Json>)
    ensures ParseAll(items).Some? ==>
              forall i :: 0 <= i < |ParseAll(items).value| ==> OperandsFromJson(ParseAll(items).value[i])
    decreases items
  {
    if items != [] {
      ListOperands(items[..|items| - 1]);
      ParsedOperands(items[|items| - 1]);
    }
  }

  // ----- reading a printed tree -----

  /** w holds, for each member, what the member alone reads as. */
  ghost predicate Reads(ms: seq<Member>, w: Where) {
    && (forall k :: k in w.m ==> HasKey(ms, k))
    && forall i :: 0 <= i < |ms| ==> ms[i].key in w.m && ParseMember(ms[i]) == Some(w.m[ms[i].key])
  }

  lemma ReadsAppend(ms: seq<Member>, w: Where, m: Member, n: Node)
    requires DistinctKeys(ms + [m]) && Reads(ms, w) && ParseMember(m) == Some(n)
    ensures Reads(ms + [m], Where(w.m[m.key := n]))
  {
    var all := ms + [m];
    assert all[|ms|] == m && forall i :: 0 <= i < |ms| ==> all[i] == ms[i];
    forall k | k in w.m[m.key := n] ensures HasKey(all, k) {
      if k != m.key {
        var i :| 0 <= i < |ms| && ms[i].key == k;
        assert all[i].key == k;
      }
    }
  }

  /** Members with distinct keys are read independently of each other. */
  lemma {:induction false} ReadMembers(ms: seq<Member>)
    requires DistinctKeys(ms)
    ensures ParseMembers(ms).Some? ==> Reads(ms, ParseMembers(ms).value)
    ensures (forall i :: 0 <= i < |ms| ==> ParseMember(ms[i]).Some?) ==> ParseMembers(ms).Some?
    decreases ms
  {
    if ms != [] {
      var (front, last) := (ms[..|ms| - 1], ms[|ms| - 1]);
      ReadMembers(front);
      assert ms == front + [last];
      if ParseMembers(ms).Some? {
        ReadsAppend(front, ParseMembers(front).value, last, ParseMember(last).value);
      }
    }
  }

  /** Reading what a parsed tree prints gives the tree back exactly when no operand
      of it is, or holds, a nil slice. */
  lemma {:induction false} WhereRoundTrip(w: Where, j: Json)
    requires Parsed(w) && OperandsFromJson(w) && PrintsWhere(w, j)
    ensures ParseWhere(j) == Some(w) <==> NoNilOperand(w)
    decreases w
  {
    var ms := j.members;
    if Like in w.m {
      PatternRoundTrip(w, ms, Like);
    } else if NLike in w.m {
      PatternRoundTrip(w, ms, NLike);
    } else {
      GetByKey(ms, Like);
      GetByKey(ms, NLike);
      forall i | 0 <= i < |ms|
        ensures var k := ms[i].key;
                ParseMember(ms[i]) == Some(w.m[k]) <==> NodeNilFree(w.m[k])
      {
        NodeRoundTrip(ms[i].key, w.m[ms[i].key], ms[i].value);
      }
      MembersRoundTrip(w, ms);
      assert ParseWhere(j) == ParseMembers(ms);
    }
  }

  lemma {:induction false} MembersRoundTrip(w: Where, ms: seq<Member>)
    requires PrintsWhere(w, JObj(ms))
    requires forall i :: 0 <= i < |ms| ==>
               (ParseMember(ms[i]) == Some(w.m[ms[i].key]) <==> NodeNilFree(w.m[ms[i].key]))
    ensures ParseMembers(ms) == Some(w) <==> NoNilOperand(w)
  {
    ReadMembers(ms);
    if ParseMembers(ms) == Some(w) {
      forall k | k in w.m ensures NodeNilFree(w.m[k]) {
        var i :| 0 <= i < |ms| && ms[i].key == k;
      }
    }
    if NoNilOperand(w) {
      var back := ParseMembers(ms);
      assert back.Some?;
      assert back.value.m.Keys == w.m.Keys;
      forall k | k in w.m ensures back.value.m[k] == w.m[k] {
        var i :| 0 <= i < |ms| && ms[i].key == k;
      }
      assert back.value.m == w.m;
    }
  }

  lemma {:induction false} PatternRoundTrip(w: Where, ms: seq<Member>, k: Key)
    requires k.Like? || k.NLike?
    requires w.m.Keys == {k, Options} && w.m[k].Atom? && w.m[Options].Atom?
    requires OperandsFromJson(w) && PrintsWhere(w, JObj(ms))
    ensures ParseWhere(JObj(ms)) == Some(w) <==> NoNilOperand(w)
  {
    var pattern, options := w.m[k].v, w.m[Options].v;
    assert NodeFromJson(w.m[k]) && NodeFromJson(w.m[Options]);
    PatternMembers(w, ms, k);
    ReadPattern(ms, k, PrintedValue(pattern), PrintedValue(options));
    PatternEqual(w, k, RawValue(PrintedValue(pattern)), RawValue(PrintedValue(options)));
    ValueRoundTrip(pattern);
    ValueRoundTrip(options);
    PatternNilFree(w, k);
  }

  lemma {:induction false} PatternMembers(w: Where, ms: seq<Member>, k: Key)
    requires PrintsWhere(w, JObj(ms)) && (k.Like? || k.NLike?)
    requires w.m.Keys == {k, Options} && w.m[k].Atom? && w.m[Options].Atom?
    ensures Get(ms, k) == Some(PrintedValue(w.m[k].v)) && Get(ms, Options) == Some(PrintedValue(w.m[Options].v))
    ensures k.NLike? ==> Get(ms, Like).None?
  {
    PrintedMember(w, ms, k);
    PrintedMember(w, ms, Options);
    if k.NLike? {
      UnprintedMember(w, ms, Like);
    }
  }

  lemma {:induction false} PatternEqual(w: Where, k: Key, pattern: Value, options: Value)
    requires w.m.Keys == {k, Options} && !k.Options? && w.m[k].Atom? && w.m[Options].Atom?
    ensures w == Where(map[k := Atom(pattern), Options := Atom(options)]) <==>
            w.m[k].v == pattern && w.m[Options].v == options
  {
    var back := Where(map[k := Atom(pattern), Options := Atom(options)]);
    assert back.m[k] == Atom(pattern) && back.m[Options] == Atom(options);
    assert w.m == map[k := w.m[k], Options := w.m[Options]];
  }

  lemma {:induction false} PatternNilFree(w: Where, k: Key)
    requires w.m.Keys == {k, Options} && w.m[k].Atom? && w.m[Options].Atom?
    ensures NoNilOperand(w) <==> NilFree(w.m[k].v) && NilFree(w.m[Options].v)
  {
    assert NoNilOperand(w) <==> NodeNilFree(w.m[k]) && NodeNilFree(w.m[Options]);
  }

  lemma {:induction false} PrintedMember(w: Where, ms: seq<Member>, k: Key)
    requires PrintsWhere(w, JObj(ms)) && k in w.m && w.m[k].Atom?
    ensures Get(ms, k) == Some(PrintedValue(w.m[k].v))
  {
    GetByKey(ms, k);
    assert HasKey(ms, k);
    var i :| 0 <= i < |ms| && ms[i].key == k;
    assert PrintsNode(w.m[k], ms[i].value);
  }

  lemma {:induction false} UnprintedMember(w: Where, ms: seq<Member>, k: Key)
    requires PrintsWhere(w, JObj(ms)) && k !in w.m
    ensures Get(ms, k).None?
  {
    GetByKey(ms, k);
  }

  lemma {:induction false} ReadPattern(ms: seq<Member>, k: Key, pattern: Json, options: Json)
    requires k.Like? || (k.NLike? && Get(ms, Like).None?)
    requires Get(ms, k) == Some(pattern) && Get(ms, Options) == Some(options)
    ensures ParseWhere(JObj(ms)) == Some(Where(map[k := Atom(RawValue(pattern)), Options := Atom(RawValue(options))]))
  {}

  lemma {:induction false} NodeRoundTrip(k: Key, n: Node, j: Json)
    requires ParsedEntry(k, n) && NodeFromJson(n) && PrintsNode(n, j)
    ensures ParseMember(Member(k, j)) == Some(n) <==> NodeNilFree(n)
    decreases n
  {
    match n
    case Atom(v) => ValueRoundTrip(v);
    case Sub(w) => WhereRoundTrip(w, j);
    case Group(ws) =>
      assert AllParsed(ws);
      ListRoundTrip(ws, j.items);
  }

  lemma {:induction false} ListRoundTrip(ws: seq<Where>, items: seq<Json>)
    requires |items| == |ws| && AllParsed(ws)
    requires forall i :: 0 <= i < |ws| ==> OperandsFromJson(ws[i])
    requires forall i :: 0 <= i < |ws| ==> PrintsWhere(ws[i], items[i])
    ensures ParseAll(items) == Some(ws) <==> AllNilFree(ws)
    decreases ws
  {
    if ws != [] {
      var end := |ws| - 1;
      ListRoundTrip(ws[..end], items[..end]);
      WhereRoundTrip(ws[end], items[end]);
      AllNilFreeSplit(ws);
      ParseAllSplit(items, ws);
    }
  }

  lemma AllNilFreeSplit(ws: seq<Where>)
    requires ws != []
    ensures AllNilFree(ws) <==> AllNilFree(ws[..|ws| - 1]) && NoNilOperand(ws[|ws| - 1])
  {
    assert forall i :: 0 <= i < |ws| - 1 ==> ws[..|ws| - 1][i] == ws[i];
  }

  lemma ParseAllSplit(items: seq<Json>, ws: seq<Where>)
    requires |items| == |ws| != 0
    ensures ParseAll(items) == Some(ws) <==>
            ParseAll(items[..|ws| - 1]) == Some(ws[..|ws| - 1]) && ParseWhere(items[|ws| - 1]) == Some(ws[|ws| - 1])
  {
    var end := |ws| - 1;
    var (front, last) := (ParseAll(items[..end]), ParseWhere(items[end]));
    if ParseAll(items) == Some(ws) {
      assert ws[..end] == front.value && ws[end] == last.value;
    }
    assert ws == ws[..end] + [ws[end]];
  }
}
