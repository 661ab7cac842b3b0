/** Why compiling fails and what it warns about, object by object; and which operands it
    converts to what. */
module CompilerFailures {
  import opened Wrappers
  import opened Lbq
  import opened WhereCompiler
  import opened CompilerSafety

  // ----- operands -----

  /** The value is one of the field's declared type. */
  predicate OfType(f: Field, v: Value) { if f.dataType == "ObjectID" then v.ObjectId? else v.Instant? }

  /** Ids and dates become what they mean, alone or item by item; what has no meaning as such is
      dropped, and so is null unless the field may be nil. Lists of dates must be []any. */
  lemma ConversionIsCast(f: Field, key: Key, v: Value, y: Value, env: Env)
    ensures Convert(f, key, v, env) == Some(y) <==>
            if f.dataType != "ObjectID" && f.dataType != "Date" then y == v
            else if key.Inq? || key.Nin? then ListConverted(f, v, y, env)
            else (y == Cast(f, v, env) && OfType(f, y)) || (f.isPointer && v == y == Null)
  {
    if (f.dataType == "ObjectID" || f.dataType == "Date") && (key.Inq? || key.Nin?) {
      ListConversion(f, key, v, y, env);
    }
  }

  predicate ListConverted(f: Field, v: Value, y: Value, env: Env) {
    && IsSlice(v) && (f.dataType == "ObjectID" || v.dynamic)
    && (if ItemsOf(v) == [] then y == NilSlice(false) else y.Slice? && !y.dynamic)
    && |ItemsOf(y)| == |ItemsOf(v)|
    && forall i | 0 <= i < |ItemsOf(v)| :: ItemsOf(y)[i] == Cast(f, ItemsOf(v)[i], env) && OfType(f, ItemsOf(y)[i])
  }

  lemma ListConversion(f: Field, key: Key, v: Value, y: Value, env: Env)
    requires (f.dataType == "ObjectID" || f.dataType == "Date") && (key.Inq? || key.Nin?)
    ensures Convert(f, key, v, env) == Some(y) <==> ListConverted(f, v, y, env)
  {
    var isId := f.dataType == "ObjectID";
    var convert := x => if isId then ToObjectId(x, env) else ToInstant(x, env);
    assert forall x, z :: convert(x) == Some(z) <==> z == Cast(f, x, env) && OfType(f, z);
    AllConverted(ItemsOf(v), convert, ItemsOf(y));
    assert Convert(f, key, v, env) == ConvertList(v, isId, convert);
  }

  lemma AllConverted(items: seq<Value>, convert: Value -> Option<Value>, converted: seq<Value>)
    ensures ConvertAll(items, convert) == Some(converted) <==>
            |converted| == |items| && forall i | 0 <= i < |items| :: convert(items[i]) == Some(converted[i])
  {
    if |converted| == |items| && forall i | 0 <= i < |items| :: convert(items[i]) == Some(converted[i]) {
      assert ConvertAll(items, convert).value == converted;
    }
  }

  // ----- errors and warnings -----

  datatype Finding = Error(code: string) | Warning(field: string)

  /** What one object says of itself: a `$where` and a bad `exists` are errors, and so is a group
      with no member that puts something into the query; a key that is no operator and has no
      field is warned about. */
  ghost predicate Local(w: Where, parent: string, env: Env, x: Finding) {
    if Dollar("where") in w.m then x == Error("WHERE_CLAUSE_NOT_ALLOWED")
    else if Exists in w.m && !(w.m[Exists].Atom? && w.m[Exists].v.Bool?) then x == Error("INVALID_EXISTS_CONDITION")
    else !Special(w) && exists k :: k in w.m && LocalEntry(k, w.m[k], parent, env, x)
  }

  ghost predicate LocalEntry(k: Key, n: Node, parent: string, env: Env, x: Finding) {
    match x
    case Error(code) =>
      && code == "INVALID_AND_OR_CONDITION"
      && Visited(k, env) && n.Group? && forall w <- n.ws :: StatusOf(w, parent, env) != Full
    case Warning(field) => field == Text(k) && Unknown(k, env)
  }

  /** What a call reports. */
  ghost predicate Reports(w: Where, parent: string, env: Env, x: Finding) {
    match x
    case Error(code) => code in CodesOf(w, parent, env)
    case Warning(field) => field in UnknownFields(w, parent, env)
  }

  ghost predicate ReportsEntry(k: Key, n: Node, parent: string, env: Env, x: Finding) {
    match x
    case Error(code) => code in EntryCodes(k, n, parent, env)
    case Warning(field) => field in EntryUnknown(k, n, parent, env)
  }

  /** Some object that the call reaches says it of itself. */
  ghost predicate Met(w: Where, parent: string, env: Env, x: Finding) {
    exists inner, at :: Reaches(w, parent, inner, at, env) && Local(inner, at, env, x)
  }

  ghost predicate MetBelow(k: Key, n: Node, parent: string, env: Env, x: Finding) {
    exists inner, at :: EntryReaches(k, n, parent, inner, at, env) && Local(inner, at, env, x)
  }

  /** A call reports exactly what the objects it reaches say of themselves. */
  lemma {:induction false} ReportsWhatIsMet(w: Where, parent: string, env: Env, x: Finding)
    ensures Reports(w, parent, env, x) <==> Met(w, parent, env, x)
    decreases w
  {
    if Dollar("where") !in w.m && !Special(w) {
      forall k | k in w.m
        ensures ReportsEntry(k, w.m[k], parent, env, x) <==>
                LocalEntry(k, w.m[k], parent, env, x) || MetBelow(k, w.m[k], parent, env, x)
      {
        EntryReportsWhatIsMet(k, w.m[k], parent, env, x);
      }
      ReportsByEntries(w, parent, env, x);
    } else {
      assert Reaches(w, parent, w, parent, env);
    }
  }

  lemma ReportsByEntries(w: Where, parent: string, env: Env, x: Finding)
    requires Dollar("where") !in w.m && !Special(w)
    requires forall k | k in w.m :: ReportsEntry(k, w.m[k], parent, env, x) <==>
               LocalEntry(k, w.m[k], parent, env, x) || MetBelow(k, w.m[k], parent, env, x)
    ensures Reports(w, parent, env, x) <==> Met(w, parent, env, x)
  {
    AnyEntryReports(w, parent, env, x);
    assert Reaches(w, parent, w, parent, env);
    if Met(w, parent, env, x) {
      var inner, at :| Reaches(w, parent, inner, at, env) && Local(inner, at, env, x);
      if inner != w || at != parent {
        var k :| k in w.m && EntryReaches(k, w.m[k], parent, inner, at, env);
        assert MetBelow(k, w.m[k], parent, env, x);
      }
    }
    if k :| k in w.m && MetBelow(k, w.m[k], parent, env, x) {
      var inner, at :| EntryReaches(k, w.m[k], parent, inner, at, env) && Local(inner, at, env, x);
      assert Reaches(w, parent, inner, at, env);
    }
  }

  lemma AnyEntryReports(w: Where, parent: string, env: Env, x: Finding)
    requires Dollar("where") !in w.m && !Special(w)
    ensures Reports(w, parent, env, x) <==> exists k :: k in w.m && ReportsEntry(k, w.m[k], parent, env, x)
  {
    match x
    case Error(code) =>
      assert CodesOf(w, parent, env) == CodesOver(w, w.m.Keys, parent, env);
      if k :| k in w.m && ReportsEntry(k, w.m[k], parent, env, x) { assert code in EntryCodes(k, w.m[k], parent, env); }
      if code in CodesOver(w, w.m.Keys, parent, env) {
        var k :| k in w.m.Keys && code in EntryCodes(k, w.m[k], parent, env);
        assert ReportsEntry(k, w.m[k], parent, env, x);
      }
    case Warning(field) =>
      assert UnknownFields(w, parent, env) == UnknownOver(w, w.m.Keys, parent, env);
      if field in UnknownOver(w, w.m.Keys, parent, env) {
        var k :| k in w.m.Keys && field in EntryUnknown(k, w.m[k], parent, env);
        assert ReportsEntry(k, w.m[k], parent, env, x);
      }
  }

  lemma {:induction false} EntryReportsWhatIsMet(k: Key, n: Node, parent: string, env: Env, x: Finding)
    ensures ReportsEntry(k, n, parent, env, x) <==> LocalEntry(k, n, parent, env, x) || MetBelow(k, n, parent, env, x)
    decreases n
  {
    if Visited(k, env) {
      match n
      case Atom(_) =>
      case Sub(w) =>
        ReportsWhatIsMet(w, Text(k), env, x);
        SubMeets(k, w, parent, env, x);
      case Group(ws) =>
        forall i | 0 <= i < |ws| ensures Reports(ws[i], parent, env, x) <==> Met(ws[i], parent, env, x) {
          ReportsWhatIsMet(ws[i], parent, env, x);
        }
        GroupMeets(k, ws, parent, env, x);
    }
  }

  lemma SubMeets(k: Key, w: Where, parent: string, env: Env, x: Finding)
    requires Visited(k, env)
    ensures MetBelow(k, Sub(w), parent, env, x) <==> Met(w, Text(k), env, x)
  {
    forall inner, at
      ensures EntryReaches(k, Sub(w), parent, inner, at, env) <==> Reaches(w, Text(k), inner, at, env)
    {}
  }

  lemma GroupMeets(k: Key, ws: seq<Where>, parent: string, env: Env, x: Finding)
    requires Visited(k, env)
    requires forall i | 0 <= i < |ws| :: Reports(ws[i], parent, env, x) <==> Met(ws[i], parent, env, x)
    ensures MetBelow(k, Group(ws), parent, env, x) <==> exists i | 0 <= i < |ws| :: Met(ws[i], parent, env, x)
    ensures ReportsEntry(k, Group(ws), parent, env, x) <==>
            LocalEntry(k, Group(ws), parent, env, x) || exists i | 0 <= i < |ws| :: Reports(ws[i], parent, env, x)
  {
    GroupMet(k, ws, parent, env, x);
    GroupReports(k, ws, parent, env, x);
  }

  lemma GroupMet(k: Key, ws: seq<Where>, parent: string, env: Env, x: Finding)
    requires Visited(k, env)
    ensures MetBelow(k, Group(ws), parent, env, x) <==> exists i | 0 <= i < |ws| :: Met(ws[i], parent, env, x)
  {
    if i :| 0 <= i < |ws| && Met(ws[i], parent, env, x) {
      var inner, at :| Reaches(ws[i], parent, inner, at, env) && Local(inner, at, env, x);
      assert EntryReaches(k, Group(ws), parent, inner, at, env);
    }
    if MetBelow(k, Group(ws), parent, env, x) {
      var inner, at :| EntryReaches(k, Group(ws), parent, inner, at, env) && Local(inner, at, env, x);
      var i :| 0 <= i < |ws| && Reaches(ws[i], parent, inner, at, env);
      assert Met(ws[i], parent, env, x);
    }
  }

  lemma GroupReports(k: Key, ws: seq<Where>, parent: string, env: Env, x: Finding)
    requires Visited(k, env)
    ensures ReportsEntry(k, Group(ws), parent, env, x) <==>
            LocalEntry(k, Group(ws), parent, env, x) || exists i | 0 <= i < |ws| :: Reports(ws[i], parent, env, x)
  {
    match x
    case Error(code) =>
      assert EntryCodes(k, Group(ws), parent, env) == GroupCodes(ws, parent, env);
      NoneFull(ws, parent, env);
      assert code in CodesIn(ws, parent, env) <==> exists i | 0 <= i < |ws| :: Reports(ws[i], parent, env, x);
    case Warning(field) =>
      assert field in UnknownIn(ws, parent, env) <==> exists i | 0 <= i < |ws| :: Reports(ws[i], parent, env, x);
  }

  lemma NoneFull(ws: seq<Where>, parent: string, env: Env)
    ensures AnyEnds(Full, ws, parent, env) <==> !forall w <- ws :: StatusOf(w, parent, env) != Full
  {
    if w :| w in ws && StatusOf(w, parent, env) == Full {
      var i :| 0 <= i < |ws| && ws[i] == w;
      assert StatusOf(ws[i], parent, env) == Full;
    }
  }

  // ----- failing -----

  /** A call that does not crash fails exactly when it has an error to report. */
  lemma {:induction false} FailsIff(w: Where, parent: string, env: Env)
    requires StatusOf(w, parent, env) != Crashes
    ensures StatusOf(w, parent, env) == Rejects <==> exists code :: Met(w, parent, env, Error(code))
  {
    FailsIffCoded(w, parent, env);
    if CodesOf(w, parent, env) != {} {
      var code :| code in CodesOf(w, parent, env);
      ReportsWhatIsMet(w, parent, env, Error(code));
    }
    if code :| Met(w, parent, env, Error(code)) {
      ReportsWhatIsMet(w, parent, env, Error(code));
      assert Reports(w, parent, env, Error(code));
    }
  }

  lemma {:induction false} FailsIffCoded(w: Where, parent: string, env: Env)
    requires StatusOf(w, parent, env) != Crashes
    ensures StatusOf(w, parent, env) == Rejects <==> CodesOf(w, parent, env) != {}
    decreases w
  {
    if WHERE_CLAUSE !in w.m && !Special(w) {
      forall k | k in w.m
        ensures EntryStatus(k, w.m[k], parent, env) == Rejects <==> EntryCodes(k, w.m[k], parent, env) != {}
      {
        assert EntryStatus(k, w.m[k], parent, env) != Crashes;
        EntryFailsIffCoded(k, w.m[k], parent, env);
      }
      AnyEntryCoded(w, parent, env);
    }
  }

  lemma AnyEntryCoded(w: Where, parent: string, env: Env)
    ensures CodesOver(w, w.m.Keys, parent, env) != {} <==>
            exists k :: k in w.m && EntryCodes(k, w.m[k], parent, env) != {}
  {
    if k :| k in w.m && EntryCodes(k, w.m[k], parent, env) != {} {
      var code :| code in EntryCodes(k, w.m[k], parent, env);
      assert code in CodesOver(w, w.m.Keys, parent, env);
    }
  }

  lemma {:induction false} EntryFailsIffCoded(k: Key, n: Node, parent: string, env: Env)
    requires EntryStatus(k, n, parent, env) != Crashes
    ensures EntryStatus(k, n, parent, env) == Rejects <==> EntryCodes(k, n, parent, env) != {}
    decreases n
  {
    if Visited(k, env) {
      match n
      case Atom(_) =>
      case Sub(w) => FailsIffCoded(w, Text(k), env);
      case Group(ws) =>
        assert !AnyEnds(Crashes, ws, parent, env);
        forall i | 0 <= i < |ws|
          ensures StatusOf(ws[i], parent, env) == Rejects <==> CodesOf(ws[i], parent, env) != {}
        {
          assert StatusOf(ws[i], parent, env) != Crashes;
          FailsIffCoded(ws[i], parent, env);
        }
        AnyMemberCoded(ws, parent, env);
        assert CodesIn(ws, parent, env) != {} <==> AnyEnds(Rejects, ws, parent, env);
        assert !AnyEnds(Full, ws, parent, env) ==> INVALID_AND_OR_CONDITION in GroupCodes(ws, parent, env);
        assert AnyEnds(Full, ws, parent, env) ==> GroupCodes(ws, parent, env) == CodesIn(ws, parent, env);
    }
  }

  lemma AnyMemberCoded(ws: seq<Where>, parent: string, env: Env)
    ensures CodesIn(ws, parent, env) != {} <==> exists i :: 0 <= i < |ws| && CodesOf(ws[i], parent, env) != {}
  {
    if i :| 0 <= i < |ws| && CodesOf(ws[i], parent, env) != {} {
      var code :| code in CodesOf(ws[i], parent, env);
      assert code in CodesIn(ws, parent, env);
    }
  }
}
