/** A repository over a stored collection, one step per operation, and what holds over
    every run of operations. */
module Repositories {
  import opened Wrappers
  import opened Lbq
  import opened Mongo
  import opened CompilerShape
  import opened CompilerCorrectness
  import opened WhereBuilders
  import opened FilterBuilders
  import opened RepositoryQuery
  import opened UpsertSeed
  import W = WhereCompiler
  import Update = UpdateDocument

  /** The foreign functions, with the effect of the update operators other than $set,
      $currentDate and $setOnInsert on a document; None is a rejection. */
  datatype World = World(env: Env, other: (Update.Update, Document) -> Option<Document>)

  /** Stored documents by slot. */
  type Store = map<nat, Document>

  // ----- what the server does with an update -----

  function FieldsUnder(u: Update.Update, op: Update.Operator): Option<map<string, Value>> {
    if Update.Command(op) in u then Update.SetFields(u[Update.Command(op)]) else Some(map[])
  }

  predicate HasOtherOperators(u: Update.Update) {
    exists k <- u.Keys :: k.Command? && k.op.OtherOperator?
  }

  /** Two operators may not write the same field. */
  function ApplyUpdate(u: Update.Update, d: Document, now: int, w: World): Option<Document> {
    var (fields, dates) := (FieldsUnder(u, Update.Set), FieldsUnder(u, Update.CurrentDate));
    var base := if HasOtherOperators(u) then w.other(u, d) else Some(d);
    if fields.None? || dates.None? || base.None? || !(fields.value.Keys !! dates.value.Keys) then None
    else Some(base.value + Sent(fields.value) + (map k | k in dates.value :: Instant(now)))
  }

  /** The values as the driver writes them. */
  function Sent(m: map<string, Value>): Document { map k | k in m :: Wire(m[k]) }

  /** Some documents that q matches are rewritten, and nothing else changes. */
  predicate Rewrites(s: Store, s': Store, q: Query, u: Update.Update, now: int, w: World) {
    && s'.Keys == s.Keys
    && forall slot <- s.Keys :: s'[slot] == s[slot] || RewritesTo(s[slot], s'[slot], q, u, now, w)
  }

  /** One document that q matches is rewritten. */
  ghost predicate OneRewritten(s: Store, s': Store, q: Query, u: Update.Update, now: int, w: World) {
    exists slot <- Matching(s, q, w) ::
      ApplyUpdate(u, s[slot], now, w).Some? && s' == s[slot := ApplyUpdate(u, s[slot], now, w).value]
  }

  /** Every document that q matches is rewritten, and no other. */
  ghost predicate AllRewritten(s: Store, s': Store, q: Query, u: Update.Update, now: int, w: World) {
    RewrittenUpTo(s, s', Matching(s, q, w), u, now, w)
  }

  /** The documents in `done` are rewritten, and no others. */
  ghost predicate RewrittenUpTo(s: Store, s': Store, done: set<nat>, u: Update.Update, now: int, w: World) {
    && s'.Keys == s.Keys
    && forall slot <- s.Keys ::
         if slot in done then ApplyUpdate(u, s[slot], now, w) == Some(s'[slot]) else s'[slot] == s[slot]
  }

  /** The documents that are different. */
  function Changed(s: Store, s': Store): set<nat> { set slot | slot in s && slot in s' && s'[slot] != s[slot] }

  lemma OneMoreChanged(s: Store, s': Store, slot: nat, d: Document)
    requires slot in s && slot in s' && s'[slot] == s[slot]
    ensures |Changed(s, s'[slot := d])| == |Changed(s, s')| + if d != s'[slot] then 1 else 0
  {
    assert Changed(s, s'[slot := d]) == Changed(s, s') + if d != s'[slot] then {slot} else {};
  }

  lemma OneMoreRewritten(s: Store, s': Store, done: set<nat>, slot: nat, d: Document, u: Update.Update, now: int,
          w: World)
    requires RewrittenUpTo(s, s', done, u, now, w) && slot in s && slot !in done
    requires ApplyUpdate(u, s[slot], now, w) == Some(d)
    ensures s'[slot] == s[slot] && RewrittenUpTo(s, s'[slot := d], done + {slot}, u, now, w)
  {}

  /** Some documents that q matches are gone, and nothing else changes. */
  predicate Removes(s: Store, s': Store, q: Query, w: World) {
    && s'.Keys <= s.Keys
    && (forall slot <- s'.Keys :: s'[slot] == s[slot])
    && forall slot <- s.Keys - s'.Keys :: Matches(q, s[slot], w.env)
  }

  predicate RewritesTo(d: Document, d': Document, q: Query, u: Update.Update, now: int, w: World) {
    Matches(q, d, w.env) && ApplyUpdate(u, d, now, w) == Some(d')
  }

  function Matching(s: Store, q: Query, w: World): set<nat> {
    set slot | slot in s && Matches(q, s[slot], w.env)
  }

  /** The stored collection. */
  class Collection {
    var docs: Store
    const w: World

    constructor (w: World)
      ensures this.w == w && docs == map[]
    {
      this.w := w;
      docs := map[];
    }

    method InsertOne(d: Document) returns (slot: nat)
      modifies this
      ensures slot !in old(docs) && docs == old(docs)[slot := d]
    {
      slot := 0;
      var keys := docs.Keys;
      while slot in docs
        invariant keys <= docs.Keys && forall k :: k in docs && k !in keys ==> k < slot
        decreases keys
      {
        keys := keys - {slot};
        slot := slot + 1;
      }
      docs := docs[slot := d];
    }

    method Find(q: Query) returns (slots: set<nat>, failed: bool)
      ensures failed <==> !Accepted(q)
      ensures !failed ==> slots == Matching(docs, q, w)
    {
      if !Accepted(q) {
        return {}, true;
      }
      slots := set slot | slot in docs && Matches(q, docs[slot], w.env);
      failed := false;
    }

    /** Any one matching document, if there is one and the server takes the query and the
        update. */
    method UpdateOne(q: Query, u: Update.Update, now: int) returns (matched: bool, failed: bool)
      modifies this
      ensures Rewrites(old(docs), docs, q, u, now, w)
      ensures !Accepted(q) ==> failed
      ensures failed ==> docs == old(docs)
      ensures failed && Accepted(q) ==>
              exists slot <- Matching(old(docs), q, w) :: ApplyUpdate(u, old(docs)[slot], now, w).None?
      ensures !failed ==> (matched <==> Matching(old(docs), q, w) != {})
      ensures !failed ==> if matched then OneRewritten(old(docs), docs, q, u, now, w) else docs == old(docs)
    {
      var slots, refused := Find(q);
      if refused {
        return false, true;
      }
      if slots == {} {
        return false, false;
      }
      var slot :| slot in slots;
      var d := ApplyUpdate(u, docs[slot], now, w);
      if d.Some? {
        docs := docs[slot := d.value];
      }
      return true, d.None?;
    }

    /** One document after the other; the first rejection ends the operation. The value is
        the number of documents that are different afterwards. */
    method UpdateMany(q: Query, u: Update.Update, now: int) returns (modified: nat, failed: bool)
      modifies this
      ensures Rewrites(old(docs), docs, q, u, now, w)
      ensures !Accepted(q) ==> failed && docs == old(docs)
      ensures failed && Accepted(q) ==>
              exists slot <- Matching(old(docs), q, w) :: ApplyUpdate(u, old(docs)[slot], now, w).None?
      ensures !failed ==> modified == |Changed(old(docs), docs)| && AllRewritten(old(docs), docs, q, u, now, w)
    {
      var slots, refused := Find(q);
      if refused {
        return 0, true;
      }
      modified, failed := 0, false;
      var remaining := slots;
      assert Changed(docs, docs) == {};
      while remaining != {}
        invariant remaining <= slots && slots == Matching(old(docs), q, w)
        invariant RewrittenUpTo(old(docs), docs, slots - remaining, u, now, w)
        invariant modified == |Changed(old(docs), docs)|
      {
        var slot :| slot in remaining;
        var d := ApplyUpdate(u, docs[slot], now, w);
        if d.None? {
          failed := true;
          return;
        }
        OneMoreRewritten(old(docs), docs, slots - remaining, slot, d.value, u, now, w);
        OneMoreChanged(old(docs), docs, slot, d.value);
        assert slots - (remaining - {slot}) == slots - remaining + {slot};
        if d.value != docs[slot] {
          modified := modified + 1;
        }
        docs := docs[slot := d.value];
        remaining := remaining - {slot};
      }
    }

    /** Where nothing matches, one document is made from the equalities of the query. */
    method UpsertOne(q: Query, u: Update.Update, now: int) returns (made: Option<nat>, failed: bool)
      modifies this
      ensures !Accepted(q) ==> failed
      ensures failed ==> docs == old(docs)
      ensures failed && Accepted(q) ==>
                || (Matching(old(docs), q, w) == {} && UpsertedDocument(q, u, now, w).None?)
                || exists slot <- Matching(old(docs), q, w) :: ApplyUpdate(u, old(docs)[slot], now, w).None?
      ensures !failed && made.None? ==>
              Rewrites(old(docs), docs, q, u, now, w) && OneRewritten(old(docs), docs, q, u, now, w)
      ensures !failed && made.Some? ==>
                && Matching(old(docs), q, w) == {} && made.value !in old(docs)
                && UpsertedDocument(q, u, now, w).Some?
                && docs == old(docs)[made.value := UpsertedDocument(q, u, now, w).value]
    {
      var matched;
      matched, failed := UpdateOne(q, u, now);
      if matched || failed {
        return None, failed;
      }
      var d := UpsertedDocument(q, u, now, w);
      if d.None? {
        return None, true;
      }
      var slot := InsertOne(d.value);
      made := Some(slot);
    }

    method DeleteOne(q: Query) returns (deleted: nat, failed: bool)
      modifies this
      ensures failed <==> !Accepted(q)
      ensures failed || Matching(old(docs), q, w) == {} ==> deleted == 0 && docs == old(docs)
      ensures !failed && Matching(old(docs), q, w) != {} ==>
                deleted == 1 && exists slot <- Matching(old(docs), q, w) :: docs == old(docs) - {slot}
    {
      var slots, refused := Find(q);
      if refused || slots == {} {
        return 0, refused;
      }
      var slot :| slot in slots;
      docs := docs - {slot};
      return 1, false;
    }

    method DeleteMany(q: Query) returns (deleted: nat, failed: bool)
      modifies this
      ensures failed <==> !Accepted(q)
      ensures failed ==> docs == old(docs)
      ensures !failed ==> deleted == |Matching(old(docs), q, w)| && docs == old(docs) - Matching(old(docs), q, w)
    {
      var slots, refused := Find(q);
      if refused {
        return 0, true;
      }
      deleted, failed := |slots|, false;
      docs := docs - slots;
    }
  }

  /** What the server inserts for an upsert that matches nothing. */
  function UpsertedDocument(q: Query, u: Update.Update, now: int, w: World): Option<Document> {
    var (seed, fields) := (Seed(q), FieldsUnder(u, Update.SetOnInsert));
    if seed.Some? && fields.Some? then ApplyUpdate(u, seed.value + Sent(fields.value), now, w) else None
  }

  // ----- steps -----

  /** One operation of a repository: the caller's compiled query before soft deletion
      is added to it, and the caller's update. */
  datatype Op =
    | Reading
    | Inserting(fields: Document, now: int)
    | Updating(q: Query, u: Update.Update, now: int, upserted: Option<Document>)
    | Deleting(q: Query, now: int)

  const MARK_DELETED: Update.Update := map[Update.CURRENT_DATE := Update.Fields(map[Update.DELETED := Bool(true)])]

  /** What an operation may do to the store. A failed operation may have done nothing, or
      part of its work. */
  ghost predicate Next(s: Store, op: Op, s': Store, o: Update.Options, w: World) {
    s' == s ||
    match op
    case Reading => false
    case Inserting(fields, now) =>
      exists slot: nat :: slot !in s && s' == s[slot := Update.PrepareInsert(fields, o, now)]
    case Updating(q, u, now, upserted) =>
      exists prepared: Update.Update :: IsPrepared(prepared, u, o, now) &&
        (|| Rewrites(s, s', FixQuery(q, o), prepared, now, w)
         || (upserted.Some? && Matching(s, FixQuery(q, o), w) == {} &&
             exists slot: nat :: slot !in s && s' == s[slot := upserted.value]))
    case Deleting(q, now) =>
      if o.deleted then Rewrites(s, s', FixQuery(q, o), MARK_DELETED, now, w)
      else Removes(s, s', FixQuery(q, o), w)
  }

  /** Prepared for an update, or for one that may insert. */
  ghost predicate IsPrepared(prepared: Update.Update, u: Update.Update, o: Update.Options, now: int) {
    || Update.Prepare(u, o, Update.NO_FLAGS, Update.NO_FLAGS, now) == Update.Ready(prepared)
    || Update.Prepare(u, o, Update.NO_FLAGS, Update.Flags(true, false), now) == Update.Ready(prepared)
  }

  // ----- the repository -----

  datatype Result<T> = Done(value: T) | Error | Panicked

  class Repository {
    const collection: Collection
    const o: Update.Options

    constructor (w: World, o: Update.Options)
      ensures this.o == o && fresh(collection) && collection.w == w && collection.docs == map[]
    {
      this.o := o;
      collection := new Collection(w);
    }

    /** The query of a builder that has just been built. */
    ghost predicate IsQueryOf(q: Query, builder: FilterBuilder)
      reads builder, builder.fields
    {
      exists filter: MongoFilter :: filter.where == q
        && IsBuiltQuery(QueryReady(FixQuery(q, o), filter), builder.BuildOutcome(), o, collection.w.env)
    }

    /** The builder may come out without a query, or with one the server rejects. */
    ghost predicate FailsToAsk(builder: FilterBuilder)
      reads builder, builder.fields
    {
      exists b: BuiltQuery :: (b.QueryReady? ==> !Accepted(b.query))
        && IsBuiltQuery(b, builder.BuildOutcome(), o, collection.w.env)
    }

    /** Compiling the builder's conditions dereferences a nil field. */
    ghost predicate Panics(builder: FilterBuilder)
      reads builder, builder.fields
    {
      var built := builder.BuildOutcome();
      built.Filtered? && W.StatusOf(built.f.where, "", collection.w.env) == W.Crashes
    }

    method Insert(fields: Document, now: int) returns (slot: nat)
      modifies collection
      ensures Next(old(collection.docs), Inserting(fields, now), collection.docs, o, collection.w)
      ensures slot !in old(collection.docs)
              && collection.docs == old(collection.docs)[slot := Update.PrepareInsert(fields, o, now)]
      ensures Inserted(fields, collection.docs[slot], now)
    {
      var d := Update.PrepareInsert(fields, o, now);
      slot := collection.InsertOne(d);
      IsInserted(fields, d, now);
    }

    /** The document holds the caller's fields, the time under a managed `created` and
        `modified`, and with soft deletion it is alive, so that a fixed query asks for it
        exactly when the query does. */
    ghost predicate Inserted(fields: Document, d: Document, now: int) {
      && (forall field :: field !in Update.Managed(o) ==> Lookup(d, field) == Lookup(fields, field))
      && (o.created ==> Lookup(d, "created") == Some(Instant(now)))
      && (o.modified ==> Lookup(d, "modified") == Some(Instant(now)))
      && (o.deleted ==> Alive(d))
      && forall q :: Matches(FixQuery(q, o), d, collection.w.env) <==> Matches(q, d, collection.w.env)
    }

    lemma IsInserted(fields: Document, d: Document, now: int)
      requires d == Update.PrepareInsert(fields, o, now)
      ensures Inserted(fields, d, now)
    {
      Update.ManagedFields(o);
      forall field ensures field !in Update.Managed(o) ==> Lookup(d, field) == Lookup(fields, field) {
        Update.InsertedFields(fields, o, now, field);
      }
      Update.InsertedFields(fields, o, now, Update.CREATED);
      Update.InsertedFields(fields, o, now, Update.MODIFIED);
      Update.InsertedFields(fields, o, now, Update.DELETED);
      forall q ensures Matches(FixQuery(q, o), d, collection.w.env) <==> Matches(q, d, collection.w.env) {
        FixedQueryMeans(q, o, d, collection.w.env);
      }
    }

    /** Building the query, and what that says of the builder. */
    method Ask(builder: FilterBuilder) returns (built: BuiltQuery)
      ensures built.QueryReady? ==>
                IsQueryOf(built.filter.where, builder) && built.query == FixQuery(built.filter.where, o)
      ensures built.QueryReady? && Accepted(built.query) ==> Accepted(built.filter.where)
      ensures !built.QueryReady? || !Accepted(built.query) ==> FailsToAsk(builder)
      ensures built.QueryPanics? <==> Panics(builder)
    {
      built := BuildQuery(builder, o, collection.w.env);
      if built.QueryReady? {
        FixedQueryAccepted(built.filter.where, o);
      }
    }

    method Find(builder: FilterBuilder) returns (r: Result<set<nat>>)
      ensures r.Done? ==> exists q ::
                IsQueryOf(q, builder) && Accepted(q)
                  && r.value == Matching(collection.docs, FixQuery(q, o), collection.w)
      ensures !r.Done? ==> FailsToAsk(builder)
      ensures r.Panicked? <==> Panics(builder)
    {
      var built := Ask(builder);
      match built
      case QueryPanics => r := Panicked;
      case QueryRefused => r := Error;
      case QueryReady(query, filter) =>
        var slots, failed := collection.Find(query);
        r := if failed then Error else Done(slots);
    }

    method Count(builder: FilterBuilder) returns (r: Result<nat>)
      ensures r.Done? ==> exists q ::
                IsQueryOf(q, builder) && Accepted(q)
                  && r.value == |Matching(collection.docs, FixQuery(q, o), collection.w)|
      ensures !r.Done? ==> FailsToAsk(builder)
      ensures r.Panicked? <==> Panics(builder)
    {
      var found := Find(builder);
      r := match found
           case Done(slots) => Done(|slots|)
           case Error => Error
           case Panicked => Panicked;
    }

    /** The update as it is sent. */
    ghost predicate Sends(prepared: Update.Update, u: Update.Update, now: int) {
      Update.Prepare(u, o, Update.NO_FLAGS, Update.NO_FLAGS, now) == Update.Ready(prepared)
    }

    /** All documents that q matches are rewritten and those it makes different counted, or one
        document if q matches any. */
    ghost predicate RewrittenBy(s: Store, s': Store, q: Query, u: Update.Update, now: int, many: bool, count: nat) {
      var slots := Matching(s, q, collection.w);
      && count == (if many then |Changed(s, s')| else if slots == {} then 0 else 1)
      && (if many then AllRewritten(s, s', q, u, now, collection.w)
          else if count == 0 then s' == s
          else OneRewritten(s, s', q, u, now, collection.w))
    }

    /** Every matching document, or one of them, has got the update. */
    ghost predicate Updated(s: Store, s': Store, op: Op, many: bool, count: nat)
      requires op.Updating?
    {
      exists prepared: Update.Update ::
        Sends(prepared, op.u, op.now) && RewrittenBy(s, s', FixQuery(op.q, o), prepared, op.now, many, count)
    }

    /** One matching document has got the update, or there was none and one has been made. */
    ghost predicate Upserted(s: Store, s': Store, op: Op, made: Option<nat>)
      requires op.Updating?
    {
      exists prepared: Update.Update ::
        && Sends(prepared, op.u, op.now)
        && match made
           case None => OneRewritten(s, s', FixQuery(op.q, o), prepared, op.now, collection.w)
           case Some(slot) =>
             && Asking(s, op.q) == {} && slot !in s
             && op.upserted.Some? && op.upserted == UpsertedDocument(FixQuery(op.q, o), prepared, op.now, collection.w)
             && s' == s[slot := op.upserted.value]
    }

    /** The update is refused, or makes the code panic, when it is prepared. */
    ghost predicate Unsendable(u: Update.Update, now: int) {
      !Update.Prepare(u, o, Update.NO_FLAGS, Update.NO_FLAGS, now).Ready?
    }

    /** The server rejects the query, or the update for one of the documents the query asks for. */
    ghost predicate Rejected(s: Store, q: Query, u: Update.Update, now: int) {
      || !Accepted(q)
      || exists prepared: Update.Update, slot :: Sends(prepared, u, now) && slot in Matching(s, q, collection.w)
           && ApplyUpdate(prepared, s[slot], now, collection.w).None?
    }

    /** The same, or no document can be made where the query asks for none. */
    ghost predicate Unmakeable(s: Store, q: Query, u: Update.Update, now: int) {
      || Rejected(s, q, u, now)
      || (Matching(s, q, collection.w) == {} && exists prepared: Update.Update ::
            Sends(prepared, u, now) && UpsertedDocument(q, prepared, now, collection.w).None?)
    }

    function Asking(s: Store, q: Query): set<nat> { Matching(s, FixQuery(q, o), collection.w) }

    /** UpdateOne, with the number of documents found, and UpdateMany, with the number of those
        it has made different. */
    method UpdateDocuments(builder: FilterBuilder, u: Update.Update, many: bool, now: int)
      returns (r: Result<nat>, ghost op: Op)
      modifies collection
      ensures op.Updating? && op.u == u && op.now == now && op.upserted.None?
      ensures collection.docs.Keys == old(collection.docs.Keys)
      ensures Next(old(collection.docs), op, collection.docs, o, collection.w)
      ensures r.Done? ==> IsQueryOf(op.q, builder) && Updated(old(collection.docs), collection.docs, op, many, r.value)
      ensures !r.Done? ==>
                || FailsToAsk(builder) || Unsendable(u, now)
                || (IsQueryOf(op.q, builder) && Rejected(old(collection.docs), FixQuery(op.q, o), u, now))
      ensures Panics(builder) ==> r.Panicked?
      ensures r.Panicked? ==> Panics(builder) || (u == map[] && o.modified)
    {
      op := Updating(Query(map[]), u, now, None);
      var built := Ask(builder);
      if !built.QueryReady? {
        return if built.QueryPanics? then Panicked else Error, op;
      }
      op := Updating(built.filter.where, u, now, None);
      r := UpdateBuilt(built.query, u, many, now, op);
    }

    /** The same, once the query is built. */
    method UpdateBuilt(q: Query, u: Update.Update, many: bool, now: int, ghost op: Op) returns (r: Result<nat>)
      requires op.Updating? && q == FixQuery(op.q, o) && op == Updating(op.q, u, now, None)
      modifies collection
      ensures Next(old(collection.docs), op, collection.docs, o, collection.w)
      ensures collection.docs.Keys == old(collection.docs.Keys)
      ensures r.Done? ==> Updated(old(collection.docs), collection.docs, op, many, r.value)
      ensures !r.Done? ==> Unsendable(u, now) || Rejected(old(collection.docs), q, u, now)
      ensures r.Panicked? <==> u == map[] && o.modified
    {
      Update.PanicsIffEmpty(u, o, Update.NO_FLAGS, Update.NO_FLAGS, now);
      var prepared := Update.PrepareUpdateDocument(u, o, Update.NO_FLAGS, Update.NO_FLAGS, now);
      if !prepared.Ready? {
        return if prepared.Panics? then Panicked else Error;
      }
      assert IsPrepared(prepared.update, u, o, now) && Sends(prepared.update, u, now);
      var matched, failed := Rewrite(q, prepared.update, many, now);
      r := if failed then Error else Done(matched);
    }

    /** One document, or all of them. */
    method Rewrite(q: Query, u: Update.Update, many: bool, now: int) returns (matched: nat, failed: bool)
      modifies collection
      ensures Rewrites(old(collection.docs), collection.docs, q, u, now, collection.w)
      ensures !Accepted(q) ==> failed && collection.docs == old(collection.docs)
      ensures failed && Accepted(q) ==>
                exists slot <- Matching(old(collection.docs), q, collection.w) ::
                  ApplyUpdate(u, old(collection.docs)[slot], now, collection.w).None?
      ensures !failed ==> RewrittenBy(old(collection.docs), collection.docs, q, u, now, many, matched)
    {
      if many {
        matched, failed := collection.UpdateMany(q, u, now);
      } else {
        var found;
        found, failed := collection.UpdateOne(q, u, now);
        matched := if found then 1 else 0;
      }
    }

    /** Upsert: the document the server makes when nothing matches does not get a `deleted` of
        the repository's own. */
    method Upsert(builder: FilterBuilder, u: Update.Update, now: int) returns (r: Result<Option<nat>>, ghost op: Op)
      modifies collection
      ensures op.Updating? && op.u == u
      ensures Next(old(collection.docs), op, collection.docs, o, collection.w)
      ensures r.Done? ==> IsQueryOf(op.q, builder) && Upserted(old(collection.docs), collection.docs, op, r.value)
      ensures !r.Done? ==>
                || FailsToAsk(builder) || Unsendable(u, now)
                || (IsQueryOf(op.q, builder) && Unmakeable(old(collection.docs), FixQuery(op.q, o), u, now))
      ensures Panics(builder) ==> r.Panicked?
      ensures r.Panicked? ==> Panics(builder) || (u == map[] && o.modified)
    {
      op := Updating(Query(map[]), u, now, None);
      var built := Ask(builder);
      if !built.QueryReady? {
        return if built.QueryPanics? then Panicked else Error, op;
      }
      r, op := UpsertBuilt(built.query, built.filter.where, u, now);
    }

    /** The same, once the query is built. */
    method UpsertBuilt(q: Query, ghost where: Query, u: Update.Update, now: int)
      returns (r: Result<Option<nat>>, ghost op: Op)
      requires q == FixQuery(where, o)
      modifies collection
      ensures op.Updating? && op.u == u && op.q == where
      ensures Next(old(collection.docs), op, collection.docs, o, collection.w)
      ensures r.Done? ==> Upserted(old(collection.docs), collection.docs, op, r.value)
      ensures !r.Done? ==> Unsendable(u, now) || Unmakeable(old(collection.docs), q, u, now)
      ensures r.Panicked? <==> u == map[] && o.modified
    {
      Update.PanicsIffEmpty(u, o, Update.NO_FLAGS, Update.NO_FLAGS, now);
      op := Updating(where, u, now, None);
      var prepared := Update.PrepareUpdateDocument(u, o, Update.NO_FLAGS, Update.NO_FLAGS, now);
      if !prepared.Ready? {
        return if prepared.Panics? then Panicked else Error, op;
      }
      assert IsPrepared(prepared.update, u, o, now) && Sends(prepared.update, u, now);
      var made, failed := collection.UpsertOne(q, prepared.update, now);
      if failed {
        return Error, op;
      }
      if made.Some? {
        op := Updating(where, u, now, UpsertedDocument(q, prepared.update, now, collection.w));
      }
      r := Done(made);
    }

    /** DeleteOne and DeleteMany: with soft deletion the documents are only marked. */
    method DeleteDocuments(builder: FilterBuilder, many: bool, now: int) returns (r: Result<nat>, ghost op: Op)
      modifies collection
      ensures op.Deleting? && op.now == now && Next(old(collection.docs), op, collection.docs, o, collection.w)
      ensures !r.Done? ==> collection.docs == old(collection.docs)
      ensures !r.Done? ==>
                FailsToAsk(builder) || (!many && IsQueryOf(op.q, builder) && Asking(old(collection.docs), op.q) == {})
      ensures r.Panicked? <==> Panics(builder)
      ensures r.Done? ==> IsQueryOf(op.q, builder) && Deleted(old(collection.docs), collection.docs, op, many, r.value)
    {
      op := Deleting(Query(map[]), now);
      var built := Ask(builder);
      if !built.QueryReady? {
        return if built.QueryPanics? then Panicked else Error, op;
      }
      op := Deleting(built.filter.where, now);
      r := DeleteBuilt(built.query, many, now, op);
    }

    /** The same, once the query is built. */
    method DeleteBuilt(q: Query, many: bool, now: int, ghost op: Op) returns (r: Result<nat>)
      requires op.Deleting? && op.now == now && q == FixQuery(op.q, o)
      modifies collection
      ensures Next(old(collection.docs), op, collection.docs, o, collection.w)
      ensures !r.Done? ==> collection.docs == old(collection.docs)
      ensures !r.Done? ==> r.Error? && (!Accepted(q) || (!many && Asking(old(collection.docs), op.q) == {}))
      ensures r.Done? ==> Deleted(old(collection.docs), collection.docs, op, many, r.value)
    {
      var deleted, failed;
      ghost var s := collection.docs;
      if o.deleted {
        deleted, failed := MarkDeleted(q, many, now);
        if many && !failed { AllMarkedAreChanged(s, collection.docs, op.q, now, o, collection.w); }
      } else if many {
        deleted, failed := collection.DeleteMany(q);
      } else {
        deleted, failed := collection.DeleteOne(q);
      }
      r := if failed || (!many && deleted == 0) then Error else Done(deleted);
    }

    /** All matching documents, or one of them, have been marked or removed. */
    ghost predicate Deleted(s: Store, s': Store, op: Op, many: bool, count: nat)
      requires op.Deleting?
    {
      && count == (if many then |Asking(s, op.q)| else 1)
      && if o.deleted then RewrittenBy(s, s', FixQuery(op.q, o), MARK_DELETED, op.now, many, count)
         else if many then s' == s - Asking(s, op.q)
         else exists slot <- Asking(s, op.q) :: s' == s - {slot}
    }

    method MarkDeleted(q: Query, many: bool, now: int) returns (marked: nat, failed: bool)
      modifies collection
      ensures failed <==> !Accepted(q)
      ensures failed ==> collection.docs == old(collection.docs)
      ensures Rewrites(old(collection.docs), collection.docs, q, MARK_DELETED, now, collection.w)
      ensures !failed ==> RewrittenBy(old(collection.docs), collection.docs, q, MARK_DELETED, now, many, marked)
    {
      MarkingSetsTheDate(now, collection.w);
      marked, failed := Rewrite(q, MARK_DELETED, many, now);
    }
  }

  lemma MarkingSetsTheDate(now: int, w: World)
    ensures forall d :: ApplyUpdate(MARK_DELETED, d, now, w) == Some(d[Update.DELETED := Instant(now)])
  {
    var k: map<string, Value> := map[Update.DELETED := Bool(true)];
    assert MARK_DELETED.Keys == {Update.CURRENT_DATE} && FieldsUnder(MARK_DELETED, Update.CurrentDate) == Some(k);
    forall d ensures ApplyUpdate(MARK_DELETED, d, now, w) == Some(d[Update.DELETED := Instant(now)]) {
      var dates := map name | name in k :: Instant(now);
      assert dates == map[Update.DELETED := Instant(now)];
      assert d + Sent(map[]) + dates == d[Update.DELETED := Instant(now)];
    }
  }

  /** What is not deleted yet is different once it is marked. */
  lemma AllMarkedAreChanged(s: Store, s': Store, q: Query, now: int, o: Update.Options, w: World)
    requires o.deleted && AllRewritten(s, s', FixQuery(q, o), MARK_DELETED, now, w)
    ensures Changed(s, s') == Matching(s, FixQuery(q, o), w)
  {
    MarkingSetsTheDate(now, w);
    forall slot | slot in s ensures slot in Changed(s, s') <==> slot in Matching(s, FixQuery(q, o), w) {
      FixedQueryMeans(q, o, s[slot], w.env);
    }
  }
}
