/** Preparing the documents that are written: which fields the repository manages, and
    how it rewrites an update so that the caller cannot set them. */
module UpdateDocument {
  import opened Wrappers
  import opened Lbq

  const CREATED := "created"
  const MODIFIED := "modified"
  const DELETED := "deleted"

  datatype Options = Options(created: bool, modified: bool, deleted: bool)

  datatype Flags = Flags(insert: bool, update: bool)

  const NO_FLAGS := Flags(false, false)

  datatype Operator = Set | CurrentDate | SetOnInsert | OtherOperator(name: string)

  datatype UpdateKey = Command(op: Operator) | FieldName(name: string)

  /** A value in an update: a plain one, a bson.M, a bson.D, or some other Go value, with
      its stored form and, when encoding it succeeds, its JSON fields. */
  datatype Operand =
    | Plain(v: Value)
    | Fields(m: map<string, Value>)
    | Ordered(entries: seq<(string, Value)>)
    | Encoded(stored: Value, json: Option<map<string, Value>>)

  type Update = map<UpdateKey, Operand>

  datatype Prepared = Panics | Refused(err: string) | Ready(update: Update)

  const MIXED_UPDATE := "the update has a mix between fields and commands"
  const INVALID_SET := "invalid $set value"
  const INVALID_CURRENT_DATE := "invalid $currentDate value"
  const INVALID_SET_ON_INSERT := "invalid $setOnInsert value"
  const EMPTY_UPDATE := "the update document is empty"

  function Managed(o: Options): set<string> {
    (if o.created then {CREATED} else {}) + (if o.modified then {MODIFIED} else {})
    + (if o.deleted then {DELETED} else {})
  }

  function FromEntries(entries: seq<(string, Value)>): map<string, Value> {
    if entries == [] then map[]
    else FromEntries(entries[..|entries| - 1])[entries[|entries| - 1].0 := entries[|entries| - 1].1]
  }

  /** The stored form of a plain field. */
  function Stored(x: Operand): Value {
    match x
    case Plain(v) => v
    case Fields(m) => Subdocument(m)
    case Ordered(entries) => Subdocument(FromEntries(entries))
    case Encoded(stored, _) => stored
  }

  predicate HasFields(d: Update) { exists k <- d.Keys :: k.FieldName? }

  predicate HasCommands(d: Update) { exists k <- d.Keys :: k.Command? }

  const SET := Command(Set)
  const CURRENT_DATE := Command(CurrentDate)
  const SET_ON_INSERT := Command(SetOnInsert)

  function PlainFields(d: Update): map<string, Value> {
    var names := set k | k in d.Keys && k.FieldName? :: k.name;
    map name | name in names && FieldName(name) in d :: Stored(d[FieldName(name)])
  }

  /** The fields of a $set value; a value that is null decodes to no fields. */
  function SetFields(x: Operand): Option<map<string, Value>> {
    match x
    case Fields(m) => Some(m)
    case Ordered(entries) => Some(FromEntries(entries))
    case Encoded(_, json) => json
    case Plain(v) => if v.Null? then Some(map[]) else None
  }

  // ----- specification, step by step -----

  /** Managed fields are deleted from the fields to set. A bson.M is changed in place;
      any other $set is replaced only when something is left to set. */
  function WithSet(d: Update, fields: map<string, Value>): Update {
    if fields != map[] then d[SET := Fields(fields)]
    else if SET in d && d[SET].Fields? then d[SET := Fields(map[])]
    else d
  }

  function Dates(supplied: map<string, Value>, o: Options, updateDeleted: Flags,
          setCreated: Flags): map<string, Value> {
    var d1 := if o.modified then supplied[MODIFIED := Bool(true)] else supplied;
    var d2 := if !o.deleted then d1 else if updateDeleted.update then d1[DELETED := Bool(true)] else d1 - {DELETED};
    if !o.created then d2
    else if setCreated.update && !setCreated.insert then d2[CREATED := Bool(true)] else d2 - {CREATED}
  }

  function WithDates(d: Update, dates: map<string, Value>): Update {
    if dates != map[] then d[CURRENT_DATE := Fields(dates)] else d - {CURRENT_DATE}
  }

  function InsertDefaults(supplied: map<string, Value>, o: Options, now: int): map<string, Value> {
    var d1 := if o.created then supplied[CREATED := Instant(now)] else supplied;
    if o.deleted then d1[DELETED := Null] else d1
  }

  /** The rewritten update, once the set fields and the update under way are known. An
      update document without any key leaves both maps nil, and storing into a nil map
      panics. */
  function Finish(start: Option<Update>, supplied: Option<Operand>, o: Options, updateDeleted: Flags,
          setCreated: Flags, now: int): Prepared {
    var base := if start.Some? then start.value else map[];
    if Managed(o) != {} && supplied.Some? && !supplied.value.Fields? then Refused(INVALID_CURRENT_DATE)
    else
      var asked := if supplied.Some? && supplied.value.Fields? then supplied.value.m else map[];
      var dates := Dates(asked, o, updateDeleted, setCreated);
      if Managed(o) != {} && dates != map[] && start.None? then Panics
      else
        var dated := if Managed(o) != {} then WithDates(base, dates) else base;
        if (o.created || o.deleted) && setCreated.insert then
          if SET_ON_INSERT in dated && !dated[SET_ON_INSERT].Fields? then Refused(INVALID_SET_ON_INSERT)
          else if start.None? then Panics
          else Ready(dated[SET_ON_INSERT := Fields(InsertDefaults(
                       if SET_ON_INSERT in dated then dated[SET_ON_INSERT].m else map[], o, now))])
        else if dated == map[] then Refused(EMPTY_UPDATE)
        else Ready(dated)
  }

  /** The update under way once the fields to set have been looked at. */
  function Start(d: Update, o: Options): Option<Update> {
    if HasCommands(d) then
      Some(if SET in d && SetFields(d[SET]).Some? then WithSet(d, SetFields(d[SET]).value - Managed(o)) else d)
    else if HasFields(d) then Some(WithSet(map[], PlainFields(d) - Managed(o)))
    else None
  }

  function Supplied(d: Update): Option<Operand> { if CURRENT_DATE in d then Some(d[CURRENT_DATE]) else None }

  function Prepare(d: Update, o: Options, updateDeleted: Flags, setCreated: Flags, now: int): Prepared {
    if HasFields(d) && HasCommands(d) then Refused(MIXED_UPDATE)
    else if SET in d && SetFields(d[SET]).None? then Refused(INVALID_SET)
    else Finish(Start(d, o), Supplied(d), o, updateDeleted, setCreated, now)
  }

  // ----- the code -----

  method PrepareUpdateDocument(document: Update, o: Options, updateDeleted: Flags, setCreated: Flags, now: int)
    returns (r: Prepared)
    ensures r == Prepare(document, o, updateDeleted, setCreated, now)
  {
    var hasFields, hasCommands := false, false;
    var remaining := document.Keys;
    while remaining != {}
      invariant remaining <= document.Keys
      invariant hasFields <==> exists k <- document.Keys - remaining :: k.FieldName?
      invariant hasCommands <==> exists k <- document.Keys - remaining :: k.Command?
    {
      var key :| key in remaining;
      if key.Command? {
        hasCommands := true;
      } else {
        hasFields := true;
      }
      remaining := remaining - {key};
    }
    assert document.Keys - remaining == document.Keys;
    if hasFields && hasCommands {
      return Refused(MIXED_UPDATE);
    }
    var newUpdate: Option<Update> := None;
    var bsonSet: map<string, Value> := map[];
    if hasCommands {
      newUpdate := Some(document);
      if SET in document {
        var fields := SetFields(document[SET]);
        if fields.None? {
          return Refused(INVALID_SET);
        }
        bsonSet := fields.value;
      }
    }
    if hasFields {
      newUpdate := Some(map[]);
      bsonSet := PlainFields(document);
    }
    bsonSet := bsonSet - Managed(o);
    if newUpdate.Some? {
      newUpdate := Some(WithSet(newUpdate.value, bsonSet));
    }
    assert newUpdate == Start(document, o) by {
      if SET !in document { NoSetChangesNothing(document, o); }
    }
    if o.modified || o.created || o.deleted {
      var dates: map<string, Value> := map[];
      if CURRENT_DATE in document {
        if !document[CURRENT_DATE].Fields? {
          return Refused(INVALID_CURRENT_DATE);
        }
        dates := document[CURRENT_DATE].m;
      }
      dates := Dates(dates, o, updateDeleted, setCreated);
      if newUpdate.None? {
        if dates != map[] {
          return Panics;
        }
      } else {
        newUpdate := Some(WithDates(newUpdate.value, dates));
      }
    }
    if (o.created && setCreated.insert) || (o.deleted && setCreated.insert) {
      var setOnInsert: map<string, Value> := map[];
      if newUpdate.Some? && SET_ON_INSERT in newUpdate.value {
        if !newUpdate.value[SET_ON_INSERT].Fields? {
          return Refused(INVALID_SET_ON_INSERT);
        }
        setOnInsert := newUpdate.value[SET_ON_INSERT].m;
      }
      setOnInsert := InsertDefaults(setOnInsert, o, now);
      if newUpdate.None? {
        return Panics;
      }
      newUpdate := Some(newUpdate.value[SET_ON_INSERT := Fields(setOnInsert)]);
      assert SET_ON_INSERT in newUpdate.value;
    }
    if newUpdate.None? || newUpdate.value == map[] {
      return Refused(EMPTY_UPDATE);
    }
    r := Ready(newUpdate.value);
  }

  function PrepareInsert(d: map<string, Value>, o: Options, now: int): map<string, Value> {
    var d1 := if o.created then d[CREATED := Instant(now)] else d;
    var d2 := if o.modified then d1[MODIFIED := Instant(now)] else d1;
    if o.deleted then d2[DELETED := Null] else d2
  }

  /** An inserted document holds the caller's fields, the time under a managed `created` and
      `modified`, and an explicit null under a managed `deleted`. */
  lemma InsertedFields(d: map<string, Value>, o: Options, now: int, field: string)
    ensures Lookup(PrepareInsert(d, o, now), field) ==
            if (field == CREATED && o.created) || (field == MODIFIED && o.modified) then Some(Instant(now))
            else if field == DELETED && o.deleted then Some(Null)
            else Lookup(d, field)
  {
    ManagedFields(o);
  }

  // ----- reading an update on its own terms -----

  predicate IsLast(entries: seq<(string, Value)>, i: int, field: string, v: Value) {
    0 <= i < |entries| && entries[i] == (field, v) && forall l | i < l < |entries| :: entries[l].0 != field
  }

  /** The operand, read as a list of fields, gives a field this value; in an ordered list the
      last entry counts. */
  ghost predicate Gives(x: Operand, field: string, v: Value) {
    match x
    case Fields(m) => field in m && m[field] == v
    case Ordered(entries) => exists i :: IsLast(entries, i, field, v)
    case Encoded(_, json) => json.Some? && field in json.value && json.value[field] == v
    case Plain(_) => false
  }

  /** The value that an operand stands for as a field's value. */
  ghost predicate StandsFor(x: Operand, v: Value) {
    match x
    case Plain(w) => v == w
    case Encoded(stored, _) => v == stored
    case _ => v.Subdocument? && forall field, w :: Gives(x, field, w) <==> field in v.m && v.m[field] == w
  }

  /** The caller asks for a field to be set, as a plain field or in $set. */
  ghost predicate SetsTo(d: Update, field: string, v: Value) {
    || (FieldName(field) in d && StandsFor(d[FieldName(field)], v))
    || (!HasFields(d) && SET in d && Gives(d[SET], field, v))
  }

  lemma {:induction false} EntriesGive(entries: seq<(string, Value)>, field: string, v: Value)
    ensures Gives(Ordered(entries), field, v) <==> field in FromEntries(entries) && FromEntries(entries)[field] == v
  {
    if entries != [] {
      var end := |entries| - 1;
      EntriesGive(entries[..end], field, v);
      if entries[end].0 == field {
        assert entries[end] == (field, v) ==> IsLast(entries, end, field, v);
      } else {
        forall i ensures IsLast(entries, i, field, v) <==> IsLast(entries[..end], i, field, v) {
          NotTheLast(entries, i, field, v);
        }
      }
    }
  }

  lemma NotTheLast(entries: seq<(string, Value)>, i: int, field: string, v: Value)
    requires entries != [] && entries[|entries| - 1].0 != field
    ensures IsLast(entries, i, field, v) <==> IsLast(entries[..|entries| - 1], i, field, v)
  {
    var front := entries[..|entries| - 1];
    assert forall l | 0 <= l < |front| :: front[l] == entries[l];
  }

  lemma SetFieldsGive(x: Operand, field: string, v: Value)
    ensures Gives(x, field, v) <==> SetFields(x).Some? && field in SetFields(x).value && SetFields(x).value[field] == v
  {
    if x.Ordered? { EntriesGive(x.entries, field, v); }
  }

  lemma StoredStandsFor(x: Operand, v: Value)
    ensures StandsFor(x, v) <==> v == Stored(x)
  {
    if x.Fields? || x.Ordered? {
      forall field, w ensures Gives(x, field, w) <==> field in Stored(x).m && Stored(x).m[field] == w {
        if x.Ordered? { EntriesGive(x.entries, field, w); }
      }
      if StandsFor(x, v) {
        assert forall field :: field in v.m ==> Gives(x, field, v.m[field]);
        assert forall field :: field in Stored(x).m ==> Gives(x, field, Stored(x).m[field]);
        assert v.m == Stored(x).m;
      }
    }
  }

  // ----- what a prepared update holds -----

  predicate Names(u: Update, op: Operator, field: string) {
    Command(op) in u && SetFields(u[Command(op)]).Some? && field in SetFields(u[Command(op)]).value
  }

  /** The fields the caller asked to set. */
  function Requested(d: Update): map<string, Value> {
    if HasFields(d) then PlainFields(d)
    else if SET in d && SetFields(d[SET]).Some? then SetFields(d[SET]).value
    else map[]
  }

  lemma ManagedFields(o: Options)
    ensures CREATED in Managed(o) <==> o.created
    ensures MODIFIED in Managed(o) <==> o.modified
    ensures DELETED in Managed(o) <==> o.deleted
    ensures Managed(o) == {} <==> !o.created && !o.modified && !o.deleted
    ensures CREATED != MODIFIED && MODIFIED != DELETED && CREATED != DELETED
  {
    assert CREATED[0] == 'c' && MODIFIED[0] == 'm' && DELETED[0] == 'd';
  }

  /** A $set that is no bson.M and asks for managed fields only is left as it was. */
  predicate EscapesRewriting(d: Update, o: Options) {
    !HasFields(d) && SET in d && !d[SET].Fields? && Requested(d) != map[] && Requested(d).Keys <= Managed(o)
  }

  /** No managed field is set by a prepared update, except exactly when the caller's
      $set escapes the rewriting. */
  lemma ManagedFieldsAreNotSet(d: Update, o: Options, updateDeleted: Flags, setCreated: Flags, now: int)
    requires Prepare(d, o, updateDeleted, setCreated, now).Ready?
    ensures var u := Prepare(d, o, updateDeleted, setCreated, now).update;
            (exists field <- Managed(o) :: Names(u, Set, field)) <==> EscapesRewriting(d, o)
  {
    var u := Prepare(d, o, updateDeleted, setCreated, now).update;
    SetSurvives(d, o, updateDeleted, setCreated, now);
    NothingLeft(Requested(d), o);
    if EscapesRewriting(d, o) {
      var field :| field in Requested(d);
      assert Names(u, Set, field);
    }
  }

  lemma NothingLeft(fields: map<string, Value>, o: Options)
    ensures fields - Managed(o) == map[] <==> fields.Keys <= Managed(o)
  {
    forall k | k in fields && k !in Managed(o) ensures fields - Managed(o) != map[] {
      assert k in fields - Managed(o);
    }
  }

  /** The last steps touch only the dates and the insert defaults. */
  lemma FinishKeeps(start: Option<Update>, supplied: Option<Operand>, o: Options, updateDeleted: Flags,
          setCreated: Flags, now: int, op: Operator)
    requires Finish(start, supplied, o, updateDeleted, setCreated, now).Ready?
    requires !op.CurrentDate? && !op.SetOnInsert?
    ensures var u := Finish(start, supplied, o, updateDeleted, setCreated, now).update;
            && start.Some? && (Command(op) in u <==> Command(op) in start.value)
            && (Command(op) in u ==> u[Command(op)] == start.value[Command(op)])
  {}

  /** Without a $set there is nothing to take managed fields from. */
  lemma NoSetChangesNothing(d: Update, o: Options)
    requires SET !in d
    ensures WithSet(d, map[] - Managed(o)) == d
  {
    var none: map<string, Value> := map[];
    assert none - Managed(o) == none;
  }

  /** What becomes of $set. */
  lemma SetSurvives(d: Update, o: Options, updateDeleted: Flags, setCreated: Flags, now: int)
    requires Prepare(d, o, updateDeleted, setCreated, now).Ready?
    ensures var u := Prepare(d, o, updateDeleted, setCreated, now).update;
            var left := Requested(d) - Managed(o);
            && (left != map[] ==> SET in u && u[SET] == Fields(left))
            && (left == map[] && HasFields(d) ==> SET !in u)
            && (left == map[] && !HasFields(d) ==> (SET in u <==> SET in d))
            && (left == map[] && !HasFields(d) && SET in d ==>
                  u[SET] == if d[SET].Fields? then Fields(map[]) else d[SET])
  {
    FinishKeeps(Start(d, o), Supplied(d), o, updateDeleted, setCreated, now, Set);
    if SET !in d { NoSetChangesNothing(d, o); }
  }

  /** Every requested field that is not managed is set to the requested value. */
  lemma UnmanagedFieldsAreKept(d: Update, o: Options, updateDeleted: Flags, setCreated: Flags, now: int, field: string)
    requires Prepare(d, o, updateDeleted, setCreated, now).Ready?
    requires field in Requested(d) && field !in Managed(o)
    ensures var u := Prepare(d, o, updateDeleted, setCreated, now).update;
            SET in u && u[SET].Fields? && field in u[SET].m && u[SET].m[field] == Requested(d)[field]
  {
    SetSurvives(d, o, updateDeleted, setCreated, now);
    assert field in Requested(d) - Managed(o);
  }

  lemma RequestedIsAsked(d: Update, field: string, v: Value)
    requires !(HasFields(d) && HasCommands(d))
    ensures SetsTo(d, field, v) <==> field in Requested(d) && Requested(d)[field] == v
  {
    if HasFields(d) {
      if FieldName(field) in d { StoredStandsFor(d[FieldName(field)], v); }
    } else if SET in d {
      SetFieldsGive(d[SET], field, v);
    }
  }

  /** What the caller asks to be set is set, unless the field is managed. */
  lemma AskedIsSet(d: Update, o: Options, updateDeleted: Flags, setCreated: Flags, now: int, field: string, v: Value)
    requires Prepare(d, o, updateDeleted, setCreated, now).Ready?
    requires SetsTo(d, field, v) && field !in Managed(o)
    ensures var u := Prepare(d, o, updateDeleted, setCreated, now).update; SET in u && Gives(u[SET], field, v)
  {
    RequestedIsAsked(d, field, v);
    UnmanagedFieldsAreKept(d, o, updateDeleted, setCreated, now, field);
  }

  /** And nothing else is, but for a $set that escapes the rewriting. */
  lemma SetIsAsked(d: Update, o: Options, updateDeleted: Flags, setCreated: Flags, now: int, field: string, v: Value)
    requires Prepare(d, o, updateDeleted, setCreated, now).Ready?
    requires var u := Prepare(d, o, updateDeleted, setCreated, now).update; SET in u && Gives(u[SET], field, v)
    ensures SetsTo(d, field, v) && (field in Managed(o) ==> EscapesRewriting(d, o))
  {
    var u := Prepare(d, o, updateDeleted, setCreated, now).update;
    SetSurvives(d, o, updateDeleted, setCreated, now);
    RequestedIsAsked(d, field, v);
    SetFieldsGive(u[SET], field, v);
    NothingLeft(Requested(d), o);
    if field in Managed(o) {
      ManagedFieldsAreNotSet(d, o, updateDeleted, setCreated, now);
      assert Names(u, Set, field);
    }
  }

  /** The dates the repository asks for itself are switched on. */
  lemma DatesAreOn(supplied: map<string, Value>, o: Options, updateDeleted: Flags, setCreated: Flags, field: string)
    requires field in Dates(supplied, o, updateDeleted, setCreated)
    ensures Dates(supplied, o, updateDeleted, setCreated)[field] ==
            if field in Managed(o) then Bool(true) else supplied[field]
  {
    DatedFields(supplied, o, updateDeleted, setCreated, field);
    ManagedFields(o);
  }

  /** For the case of an insert a managed `created` is the time and a managed `deleted` null;
      everything else is the caller's. */
  lemma InsertDefaultsAreSet(d: Update, o: Options, updateDeleted: Flags, setCreated: Flags, now: int, field: string)
    requires Prepare(d, o, updateDeleted, setCreated, now).Ready? && setCreated.insert && (o.created || o.deleted)
    ensures var u := Prepare(d, o, updateDeleted, setCreated, now).update;
            && SET_ON_INSERT in u && u[SET_ON_INSERT].Fields?
            && (field == CREATED && o.created ==> Gives(u[SET_ON_INSERT], field, Instant(now)))
            && (field == DELETED && o.deleted ==> Gives(u[SET_ON_INSERT], field, Null))
            && (!(field == CREATED && o.created) && !(field == DELETED && o.deleted) ==>
                  forall v :: Gives(u[SET_ON_INSERT], field, v) <==>
                              SET_ON_INSERT in d && Gives(d[SET_ON_INSERT], field, v))
  {
    ManagedFields(o);
    SetOnInsertStarts(d, o);
  }

  lemma SetOnInsertStarts(d: Update, o: Options)
    requires Start(d, o).Some? && !(HasFields(d) && HasCommands(d))
    ensures SET_ON_INSERT in Start(d, o).value <==> SET_ON_INSERT in d
    ensures SET_ON_INSERT in d ==> Start(d, o).value[SET_ON_INSERT] == d[SET_ON_INSERT]
  {
    assert SET_ON_INSERT in d ==> HasCommands(d);
  }

  /** Operators the repository does not manage come through unchanged. */
  lemma OtherOperatorsAreKept(d: Update, o: Options, updateDeleted: Flags, setCreated: Flags, now: int, name: string)
    requires Prepare(d, o, updateDeleted, setCreated, now).Ready?
    ensures var (u, op) := (Prepare(d, o, updateDeleted, setCreated, now).update, Command(OtherOperator(name)));
            (op in u <==> op in d) && (op in d ==> u[op] == d[op])
  {
    FinishKeeps(Start(d, o), Supplied(d), o, updateDeleted, setCreated, now, OtherOperator(name));
  }

  function SuppliedDates(d: Update): map<string, Value> {
    if CURRENT_DATE in d && d[CURRENT_DATE].Fields? then d[CURRENT_DATE].m else map[]
  }

  /** The current date goes to `modified` iff it is managed or the caller asked for it,
      to managed `created` and `deleted` only on the repository's own account, and to
      any other field iff the caller asked for it. */
  lemma CurrentDates(d: Update, o: Options, updateDeleted: Flags, setCreated: Flags, now: int, field: string)
    requires Prepare(d, o, updateDeleted, setCreated, now).Ready?
    requires CURRENT_DATE in d ==> d[CURRENT_DATE].Fields?
    ensures Names(Prepare(d, o, updateDeleted, setCreated, now).update, CurrentDate, field) <==>
            if field == MODIFIED && o.modified then true
            else if field == DELETED && o.deleted then updateDeleted.update
            else if field == CREATED && o.created then setCreated.update && !setCreated.insert
            else field in SuppliedDates(d)
  {
    DatesOf(d, o, updateDeleted, setCreated, now);
    DatedFields(SuppliedDates(d), o, updateDeleted, setCreated, field);
    ManagedFields(o);
  }

  lemma DatedFields(supplied: map<string, Value>, o: Options, updateDeleted: Flags, setCreated: Flags, field: string)
    ensures field in Dates(supplied, o, updateDeleted, setCreated) <==>
            if field == MODIFIED && o.modified then true
            else if field == DELETED && o.deleted then updateDeleted.update
            else if field == CREATED && o.created then setCreated.update && !setCreated.insert
            else field in supplied
  {
    ManagedFields(o);
  }

  lemma DatesOf(d: Update, o: Options, updateDeleted: Flags, setCreated: Flags, now: int)
    requires Prepare(d, o, updateDeleted, setCreated, now).Ready?
    requires CURRENT_DATE in d ==> d[CURRENT_DATE].Fields?
    ensures var u := Prepare(d, o, updateDeleted, setCreated, now).update;
            var dates := if Managed(o) != {} then Dates(SuppliedDates(d), o, updateDeleted, setCreated)
                         else SuppliedDates(d);
            && (dates != map[] ==> CURRENT_DATE in u && u[CURRENT_DATE] == Fields(dates))
            && (dates == map[] ==> CURRENT_DATE in u ==> u[CURRENT_DATE] == Fields(map[]))
  {
    if HasFields(d) {
      assert CURRENT_DATE !in d;
    }
  }

  /** Where nothing is managed the caller's dates are sent as they are. */
  lemma UnmanagedDatesAreKept(d: Update, o: Options, updateDeleted: Flags, setCreated: Flags, now: int)
    requires Prepare(d, o, updateDeleted, setCreated, now).Ready?
    requires CURRENT_DATE in d && !d[CURRENT_DATE].Fields?
    ensures Managed(o) == {}
    ensures var u := Prepare(d, o, updateDeleted, setCreated, now).update;
            CURRENT_DATE in u && u[CURRENT_DATE] == d[CURRENT_DATE]
  {
    assert HasCommands(d);
    ManagedFields(o);
  }

  /** A second preparation of what the first returned changes nothing. */
  lemma PreparingIsIdempotent(d: Update, o: Options, updateDeleted: Flags, setCreated: Flags, now: int)
    requires Prepare(d, o, updateDeleted, setCreated, now).Ready? && !setCreated.insert
    ensures var u := Prepare(d, o, updateDeleted, setCreated, now).update;
            Prepare(u, o, updateDeleted, setCreated, now) == Ready(u)
  {
    var u := Prepare(d, o, updateDeleted, setCreated, now).update;
    OnlyCommands(d, o, updateDeleted, setCreated, now);
    SetIsStable(d, o, updateDeleted, setCreated, now);
    FinishIsStable(d, o, updateDeleted, setCreated, now);
  }

  lemma SetIsStable(d: Update, o: Options, updateDeleted: Flags, setCreated: Flags, now: int)
    requires Prepare(d, o, updateDeleted, setCreated, now).Ready?
    ensures var u := Prepare(d, o, updateDeleted, setCreated, now).update;
            SET in u ==> SetFields(u[SET]).Some? && WithSet(u, SetFields(u[SET]).value - Managed(o)) == u
  {
    var u := Prepare(d, o, updateDeleted, setCreated, now).update;
    SetSurvives(d, o, updateDeleted, setCreated, now);
    var left := Requested(d) - Managed(o);
    if SET in u {
      assert left - Managed(o) == left;
      if left == map[] {
        assert SetFields(u[SET]).value - Managed(o) == map[];
      }
      assert WithSet(u, SetFields(u[SET]).value - Managed(o)) == u;
    }
  }

  lemma FinishIsStable(d: Update, o: Options, updateDeleted: Flags, setCreated: Flags, now: int)
    requires Prepare(d, o, updateDeleted, setCreated, now).Ready? && !setCreated.insert
    ensures var u := Prepare(d, o, updateDeleted, setCreated, now).update;
            Finish(Some(u), Supplied(u), o, updateDeleted, setCreated, now) == Ready(u)
  {
    var u := Prepare(d, o, updateDeleted, setCreated, now).update;
    assert u != map[];
    if Managed(o) != {} {
      DatesOf(d, o, updateDeleted, setCreated, now);
      DatesAreStable(SuppliedDates(d), o, updateDeleted, setCreated);
      WrittenDates(d, o, updateDeleted, setCreated, now);
    }
  }

  lemma WrittenDates(d: Update, o: Options, updateDeleted: Flags, setCreated: Flags, now: int)
    requires Prepare(d, o, updateDeleted, setCreated, now).Ready? && Managed(o) != {}
    ensures var u := Prepare(d, o, updateDeleted, setCreated, now).update;
            CURRENT_DATE in u ==> u[CURRENT_DATE].Fields? && u[CURRENT_DATE].m != map[]
  {}

  lemma OnlyCommands(d: Update, o: Options, updateDeleted: Flags, setCreated: Flags, now: int)
    requires Prepare(d, o, updateDeleted, setCreated, now).Ready?
    ensures var u := Prepare(d, o, updateDeleted, setCreated, now).update; HasCommands(u) && !HasFields(u)
  {
    var u := Prepare(d, o, updateDeleted, setCreated, now).update;
    assert u == map[] ==> SET_ON_INSERT !in u;
    var k :| k in u;
    assert forall k <- u.Keys :: k.Command?;
  }

  lemma DatesAreStable(supplied: map<string, Value>, o: Options, updateDeleted: Flags, setCreated: Flags)
    ensures var dates := Dates(supplied, o, updateDeleted, setCreated);
            Dates(dates, o, updateDeleted, setCreated) == dates
  {
    ManagedFields(o);
  }

  /** Why an update is refused: it mixes fields and operators, its $set cannot be read, its
      $currentDate or $setOnInsert is no bson.M where the repository has to add to it, or nothing
      is left to send. */
  lemma RefusedIff(d: Update, o: Options, updateDeleted: Flags, setCreated: Flags, now: int)
    ensures var r := Prepare(d, o, updateDeleted, setCreated, now);
            var mixed := (exists name :: FieldName(name) in d) && exists op :: Command(op) in d;
            var badSet := SET in d && forall m :: SetFields(d[SET]) != Some(m);
            var badDate := Managed(o) != {} && CURRENT_DATE in d && !d[CURRENT_DATE].Fields?;
            var inserts := (o.created || o.deleted) && setCreated.insert;
            var badInsert := inserts && SET_ON_INSERT in d && !d[SET_ON_INSERT].Fields?;
            && (mixed || badSet || badDate || badInsert ==> !r.Ready?)
            && (r == Refused("the update has a mix between fields and commands") <==> mixed)
            && (r == Refused("invalid $set value") <==> !mixed && badSet)
            && (r == Refused("invalid $currentDate value") <==> !mixed && !badSet && badDate)
            && (r == Refused("invalid $setOnInsert value") <==> !mixed && !badSet && !badDate && badInsert)
            && (r == Refused("the update document is empty") ==>
                  !inserts && forall op :: Command(op) in d ==> op == CurrentDate)
  {
    assert HasFields(d) <==> exists name :: FieldName(name) in d;
    assert HasCommands(d) <==> exists op :: Command(op) in d;
    ErrorsDiffer();
    if Prepare(d, o, updateDeleted, setCreated, now) == Refused(EMPTY_UPDATE) {
      forall op | Command(op) in d && op != CurrentDate ensures false {
        LeftToSend(d, o, updateDeleted, setCreated, now, op);
      }
    }
  }

  lemma ErrorsDiffer()
    ensures MIXED_UPDATE != INVALID_SET && MIXED_UPDATE != INVALID_CURRENT_DATE && MIXED_UPDATE != EMPTY_UPDATE
    ensures MIXED_UPDATE != INVALID_SET_ON_INSERT && INVALID_SET != INVALID_CURRENT_DATE
    ensures INVALID_SET != INVALID_SET_ON_INSERT && INVALID_SET != EMPTY_UPDATE
    ensures INVALID_CURRENT_DATE != INVALID_SET_ON_INSERT && INVALID_CURRENT_DATE != EMPTY_UPDATE
    ensures INVALID_SET_ON_INSERT != EMPTY_UPDATE
  {
    assert |MIXED_UPDATE| > |EMPTY_UPDATE| > |INVALID_CURRENT_DATE| == |INVALID_SET_ON_INSERT| > |INVALID_SET|;
    assert INVALID_CURRENT_DATE[9] == 'c' && INVALID_SET_ON_INSERT[9] == 's';
  }

  lemma LeftToSend(d: Update, o: Options, updateDeleted: Flags, setCreated: Flags, now: int, op: Operator)
    requires Command(op) in d && op != CurrentDate && !HasFields(d)
    ensures Prepare(d, o, updateDeleted, setCreated, now) != Refused(EMPTY_UPDATE)
  {
    ErrorsDiffer();
    assert HasCommands(d);
    var start := Start(d, o).value;
    assert Command(op) in start && Command(op) != CURRENT_DATE;
    forall dates ensures WithDates(start, dates) != map[] { assert Command(op) in WithDates(start, dates); }
  }

  /** Preparing panics exactly when the update has no key at all and the repository
      has something of its own to write. */
  lemma PanicsIffEmpty(d: Update, o: Options, updateDeleted: Flags, setCreated: Flags, now: int)
    ensures Prepare(d, o, updateDeleted, setCreated, now).Panics? <==>
            d == map[] && (o.modified || (o.deleted && updateDeleted.update)
                           || (o.created && setCreated.update && !setCreated.insert)
                           || ((o.created || o.deleted) && setCreated.insert))
  {
    ManagedFields(o);
    if d != map[] {
      var k :| k in d;
    }
    var dates := Dates(map[], o, updateDeleted, setCreated);
    assert dates == map[] <==> MODIFIED !in dates && DELETED !in dates && CREATED !in dates;
  }

  /** FindOneOrCreate passes the model value itself as $setOnInsert. It is no bson.M, so
      with managed creation or deletion dates the update is always refused. */
  lemma FindOneOrCreateIsRefused(model: Operand, o: Options, now: int)
    requires !model.Fields? && (o.created || o.deleted)
    ensures Prepare(map[SET_ON_INSERT := model], o, NO_FLAGS, Flags(true, false), now) == Refused(INVALID_SET_ON_INSERT)
  {
    ManagedFields(o);
    var d: Update := map[SET_ON_INSERT := model];
    assert SET_ON_INSERT in d && HasCommands(d) && !HasFields(d);
  }

  /** A plain-field update loses its managed fields in place: this is what the caller's
      own map holds afterwards. */
  function CallerAfter(d: Update, o: Options): Update {
    map k | k in d && !(k.FieldName? && k.name in Managed(o)) :: d[k]
  }

  /** Using the same map for a second update gives the same result exactly when it had
      some field of its own; otherwise the map is empty by then. */
  lemma PlainUpdateReuse(d: Update, o: Options, updateDeleted: Flags, setCreated: Flags, now: int)
    requires HasFields(d) && Prepare(d, o, updateDeleted, setCreated, now).Ready?
    ensures Prepare(CallerAfter(d, o), o, updateDeleted, setCreated, now) ==
            Prepare(d, o, updateDeleted, setCreated, now) <==>
            !(PlainFields(d).Keys <= Managed(o))
  {
    AfterPlainUpdate(d, o);
    NothingLeft(PlainFields(d), o);
    if CallerAfter(d, o) == map[] {
      EmptyIsNeverReady(o, updateDeleted, setCreated, now);
    }
  }

  lemma AfterPlainUpdate(d: Update, o: Options)
    requires HasFields(d) && !HasCommands(d)
    ensures var after := CallerAfter(d, o);
            if PlainFields(d).Keys <= Managed(o) then after == map[]
            else
              && HasFields(after) && SET !in after && SET !in d
              && Start(after, o) == Start(d, o) && Supplied(after) == Supplied(d)
  {
    var after := CallerAfter(d, o);
    assert forall k <- d.Keys :: k.FieldName? && k.name in PlainFields(d);
    assert !HasCommands(after);
    if PlainFields(d).Keys <= Managed(o) {
      assert after.Keys == {};
    } else {
      var name :| name in PlainFields(d) && name !in Managed(o);
      assert FieldName(name) in after;
      assert PlainFields(after) - Managed(o) == PlainFields(d) - Managed(o);
    }
  }

  lemma EmptyIsNeverReady(o: Options, updateDeleted: Flags, setCreated: Flags, now: int)
    ensures !Prepare(map[], o, updateDeleted, setCreated, now).Ready?
  {
    assert !HasFields(map[]) && !HasCommands(map[]);
  }
}
