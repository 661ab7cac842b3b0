/** What soft deletion guarantees over every run of repository operations. */
module RepositoryRuns {
  import opened Wrappers
  import opened Lbq
  import opened Mongo
  import opened CompilerShape
  import opened WhereCompiler
  import opened CompilerCorrectness
  import opened FilterBuilders
  import opened WhereBuilders
  import opened RepositoryQuery
  import opened Repositories
  import opened UpsertSeed
  import Update = UpdateDocument

  /** states[i + 1] is what operation i leaves of states[i]. */
  ghost predicate IsRun(states: seq<Store>, ops: seq<Op>, o: Update.Options, w: World) {
    |states| == |ops| + 1 && forall i :: 0 <= i < |ops| ==> Next(states[i], ops[i], states[i + 1], o, w)
  }

  // ----- frozen tombstones -----

  lemma FrozenStep(s: Store, op: Op, s': Store, o: Update.Options, w: World, slot: nat)
    requires o.deleted && Next(s, op, s', o, w) && slot in s
    ensures slot in s' && (!Alive(s[slot]) ==> s'[slot] == s[slot])
  {
    if op.Updating? || op.Deleting? {
      FixedQueryMeans(op.q, o, s[slot], w.env);
    }
  }

  /** With soft deletion nothing ever leaves the store, and a document whose `deleted` is
      anything but an explicit null has the same contents in every later state, whatever
      operations are run with whatever updates. */
  lemma {:induction false} FrozenTombstones(states: seq<Store>, ops: seq<Op>, o: Update.Options, w: World, i: nat,
          j: nat, slot: nat)
    requires o.deleted && IsRun(states, ops, o, w) && i <= j < |states| && slot in states[i]
    ensures slot in states[j] && (!Alive(states[i][slot]) ==> states[j][slot] == states[i][slot])
    decreases j
  {
    if i < j {
      FrozenTombstones(states, ops, o, w, i, j - 1, slot);
      FrozenStep(states[j - 1], ops[j - 1], states[j], o, w, slot);
    }
  }

  // ----- the life of `deleted` -----

  /** Updates whose rewriting keeps managed fields out: none of the operators the model
      knows nothing about, no $set that escapes rewriting, no upsert. */
  predicate Orderly(op: Op, o: Update.Options) {
    op.Updating? ==> op.upserted.None? && !HasOtherOperators(op.u) && !Update.EscapesRewriting(op.u, o)
  }

  predicate HasDate(d: Document) {
    Update.DELETED in d && (d[Update.DELETED].Null? || d[Update.DELETED].Instant?)
  }

  predicate AllDated(s: Store) { forall slot <- s.Keys :: HasDate(s[slot]) }

  /** A prepared orderly update leaves `deleted` of every document alone. */
  lemma PreparedKeepsDeleted(prepared: Update.Update, u: Update.Update, o: Update.Options, now: int, d: Document,
          d': Document, w: World)
    requires o.deleted && IsPrepared(prepared, u, o, now)
    requires !HasOtherOperators(u) && !Update.EscapesRewriting(u, o)
    requires ApplyUpdate(prepared, d, now, w) == Some(d')
    ensures Lookup(d', Update.DELETED) == Lookup(d, Update.DELETED)
  {
    var flags := if Update.Prepare(u, o, Update.NO_FLAGS, Update.NO_FLAGS, now) == Update.Ready(prepared)
      then Update.NO_FLAGS else Update.Flags(true, false);
    DeletedIsNotNamed(prepared, u, o, flags, now);
  }

  lemma DeletedIsNotNamed(prepared: Update.Update, u: Update.Update, o: Update.Options, flags: Update.Flags, now: int)
    requires o.deleted && Update.Prepare(u, o, Update.NO_FLAGS, flags, now) == Update.Ready(prepared)
    requires !HasOtherOperators(u) && !Update.EscapesRewriting(u, o)
    ensures !Update.Names(prepared, Update.Set, Update.DELETED)
            && !Update.Names(prepared, Update.CurrentDate, Update.DELETED)
    ensures !HasOtherOperators(prepared)
  {
    Update.ManagedFields(o);
    Update.ManagedFieldsAreNotSet(u, o, Update.NO_FLAGS, flags, now);
    Update.CurrentDates(u, o, Update.NO_FLAGS, flags, now, Update.DELETED);
    NoOthersAdded(prepared, u, o, flags, now);
  }

  lemma NoOthersAdded(prepared: Update.Update, u: Update.Update, o: Update.Options, flags: Update.Flags, now: int)
    requires Update.Prepare(u, o, Update.NO_FLAGS, flags, now) == Update.Ready(prepared)
    ensures HasOtherOperators(prepared) <==> HasOtherOperators(u)
  {
    forall name
      ensures var op := Update.Command(Update.OtherOperator(name)); op in prepared <==> op in u
    {
      Update.OtherOperatorsAreKept(u, o, Update.NO_FLAGS, flags, now, name);
    }
    if HasOtherOperators(prepared) {
      var k :| k in prepared && k.Command? && k.op.OtherOperator?;
      assert k == Update.Command(Update.OtherOperator(k.op.name));
    }
    if HasOtherOperators(u) {
      var k :| k in u && k.Command? && k.op.OtherOperator?;
      assert k == Update.Command(Update.OtherOperator(k.op.name));
    }
  }

  /** In an orderly step every document keeps an explicit `deleted`, null or a date, and
      only a deletion changes it: from null to the time of the deletion. */
  lemma LifecycleStep(s: Store, op: Op, s': Store, o: Update.Options, w: World, slot: nat)
    requires o.deleted && AllDated(s) && Orderly(op, o) && Next(s, op, s', o, w) && slot in s'
    ensures HasDate(s'[slot])
    ensures slot in s && s'[slot][Update.DELETED] != s[slot][Update.DELETED] ==>
              op.Deleting? && s[slot][Update.DELETED] == Null && s'[slot][Update.DELETED] == Instant(op.now)
  {
    if s' != s && slot in s && s'[slot] != s[slot] {
      FixedQueryMeans(op.q, o, s[slot], w.env);
      if op.Deleting? {
        MarkingSetsTheDate(op.now, w);
      } else {
        var prepared: Update.Update :| IsPrepared(prepared, op.u, o, op.now)
          && Rewrites(s, s', FixQuery(op.q, o), prepared, op.now, w);
        PreparedKeepsDeleted(prepared, op.u, o, op.now, s[slot], s'[slot], w);
      }
    }
  }

  lemma {:induction false} Lifecycle(states: seq<Store>, ops: seq<Op>, o: Update.Options, w: World, i: nat)
    requires o.deleted && IsRun(states, ops, o, w) && AllDated(states[0])
    requires forall l :: 0 <= l < |ops| ==> Orderly(ops[l], o)
    requires i < |states|
    ensures AllDated(states[i])
    decreases i
  {
    if i > 0 {
      Lifecycle(states, ops, o, w, i - 1);
      forall slot | slot in states[i] ensures HasDate(states[i][slot]) {
        LifecycleStep(states[i - 1], ops[i - 1], states[i], o, w, slot);
      }
    }
  }

  lemma DeathStep(s: Store, op: Op, s': Store, o: Update.Options, w: World, slot: nat)
    requires o.deleted && AllDated(s) && Orderly(op, o) && Next(s, op, s', o, w)
    requires slot in s && slot in s' && Alive(s[slot]) && !Alive(s'[slot])
    ensures op.Deleting? && Lookup(s'[slot], Update.DELETED) == Some(Instant(op.now))
  {
    LifecycleStep(s, op, s', o, w, slot);
  }

  /** A document that is alive in one state and not in a later one was deleted by an
      operation in between, and carries the time of that operation. */
  lemma {:induction false} DeathIsADeletion(states: seq<Store>, ops: seq<Op>, o: Update.Options, w: World, i: nat,
          j: nat, slot: nat)
    returns (l: nat)
    requires o.deleted && IsRun(states, ops, o, w) && AllDated(states[0])
    requires forall l :: 0 <= l < |ops| ==> Orderly(ops[l], o)
    requires i <= j < |states| && slot in states[i] && slot in states[j] && Alive(states[i][slot])
             && !Alive(states[j][slot])
    ensures i <= l < j && ops[l].Deleting? && Lookup(states[j][slot], Update.DELETED) == Some(Instant(ops[l].now))
    decreases j
  {
    Lifecycle(states, ops, o, w, j - 1);
    FrozenTombstones(states, ops, o, w, i, j - 1, slot);
    if Alive(states[j - 1][slot]) {
      DeathStep(states[j - 1], ops[j - 1], states[j], o, w, slot);
      l := j - 1;
    } else {
      l := DeathIsADeletion(states, ops, o, w, i, j - 1, slot);
      FrozenStep(states[j - 1], ops[j - 1], states[j], o, w, slot);
    }
  }

  // ----- upserts -----

  lemma FixedEqualities(q: Query, o: Update.Options, name: string)
    ensures Equalities(FixQuery(q, o), name) == Equalities(q, name)
  {
    if o.deleted {
      var qs := [q, DELETED_NULL];
      var ops := DELETED_NULL.m[Stored("deleted")].q;
      assert ops.m.Keys == {OpType} && Own(DELETED_NULL, name) == [] && OpAnd !in DELETED_NULL.m;
      assert qs[..1] == [q] && qs[..1][..0] == [];
      assert EqualitiesIn([q], name) == EqualitiesIn([], name) + Equalities(q, name) by { assert [q][..0] == []; }
      assert EqualitiesIn(qs, name) == EqualitiesIn([q], name) + Equalities(DELETED_NULL, name);
      assert Own(SoftDeleteQuery(q), name) == [];
    }
  }

  /** What the caller gives for the case of an insert is sent as it is. */
  lemma SetOnInsertIsKept(u: Update.Update, prepared: Update.Update, o: Update.Options, now: int)
    requires Update.Prepare(u, o, Update.NO_FLAGS, Update.NO_FLAGS, now) == Update.Ready(prepared)
    ensures FieldsUnder(prepared, Update.SetOnInsert) == FieldsUnder(u, Update.SetOnInsert)
  {
    if Update.HasFields(u) {
      assert Update.SET_ON_INSERT !in u;
    }
  }

  /** A document inserted by an orderly upsert is visible to the repository exactly when the
      caller's $setOnInsert gives it a null `deleted`, or gives none and the query has exactly one
      equality on `deleted`, to null; a list of one value and an `$or` of one member count. */
  lemma UpsertVisibility(q: Query, u: Update.Update, prepared: Update.Update, made: Document, now: int,
          o: Update.Options, w: World)
    requires o.deleted && !HasOtherOperators(u) && !Update.EscapesRewriting(u, o)
    requires Update.Prepare(u, o, Update.NO_FLAGS, Update.NO_FLAGS, now) == Update.Ready(prepared)
    requires UpsertedDocument(FixQuery(q, o), prepared, now, w) == Some(made)
    ensures FieldsUnder(u, Update.SetOnInsert).Some?
    ensures var given := FieldsUnder(u, Update.SetOnInsert).value;
            Alive(made) <==> if Update.DELETED in given then Wire(given[Update.DELETED]) == Null
                             else Equalities(q, Update.DELETED) == [Null]
    ensures !Alive(made) ==> forall q' :: !Matches(FixQuery(q', o), made, w.env)
  {
    SetOnInsertIsKept(u, prepared, o, now);
    UpsertedDeleted(FixQuery(q, o), u, prepared, made, now, o, w);
    SeedHolds(FixQuery(q, o), Update.DELETED);
    FixedEqualities(q, o, Update.DELETED);
    HiddenUnlessAlive(made, o, w);
  }

  /** The inserted document's `deleted` is the caller's for the insert, or else the seed's. */
  lemma UpsertedDeleted(q: Query, u: Update.Update, prepared: Update.Update, made: Document, now: int,
          o: Update.Options, w: World)
    requires o.deleted && !HasOtherOperators(u) && !Update.EscapesRewriting(u, o)
    requires Update.Prepare(u, o, Update.NO_FLAGS, Update.NO_FLAGS, now) == Update.Ready(prepared)
    requires UpsertedDocument(q, prepared, now, w) == Some(made)
    ensures Seed(q).Some? && FieldsUnder(prepared, Update.SetOnInsert).Some?
    ensures var given := FieldsUnder(prepared, Update.SetOnInsert).value;
            Lookup(made, Update.DELETED) ==
            if Update.DELETED in given then Some(Wire(given[Update.DELETED])) else Lookup(Seed(q).value, Update.DELETED)
  {
    var given := FieldsUnder(prepared, Update.SetOnInsert).value;
    assert IsPrepared(prepared, u, o, now);
    PreparedKeepsDeleted(prepared, u, o, now, Seed(q).value + Sent(given), made, w);
  }

  lemma HiddenUnlessAlive(d: Document, o: Update.Options, w: World)
    requires o.deleted
    ensures forall q :: Matches(FixQuery(q, o), d, w.env) ==> Alive(d)
  {
    forall q ensures Matches(FixQuery(q, o), d, w.env) ==> Alive(d) {
      FixedQueryMeans(q, o, d, w.env);
    }
  }

  /** For a well-scoped tree the equalities are the tree's own: unless the caller's $setOnInsert
      says otherwise, a visible document is made exactly when the tree asks for `deleted` once, as
      null, and never when it does not ask for it. */
  lemma UpsertOfTree(tree: Where, q: Query, u: Update.Update, prepared: Update.Update, made: Document, now: int,
          o: Update.Options, w: World)
    requires o.deleted && !HasOtherOperators(u) && !Update.EscapesRewriting(u, o)
    requires Update.Prepare(u, o, Update.NO_FLAGS, Update.NO_FLAGS, now) == Update.Ready(prepared)
    requires FieldsUnder(u, Update.SetOnInsert).Some? && Update.DELETED !in FieldsUnder(u, Update.SetOnInsert).value
    requires WellScoped(tree, w.env) && IsQuery(q, tree, "", w.env)
    requires UpsertedDocument(FixQuery(q, o), prepared, now, w) == Some(made)
    ensures Alive(made) <==> Asked(tree, Update.DELETED, w.env) == [Null]
  {
    UpsertVisibility(q, u, prepared, made, now, o, w);
    FixesWhatIsAsked(q, tree, "", Update.DELETED, w.env);
  }

  // ----- deleting and counting -----

  /** For well-scoped conditions, the documents a built query matches are the living ones
      that every condition holds of, in whatever order keys were visited. */
  lemma MatchingMeans(r: BuiltQuery, c: Contents, b: BuildResult, o: Update.Options, s: Store, w: World)
    requires Conjoinable(c.where, w.env) && b.Filtered? && b.f.where == Conjunction(c.where)
    requires IsBuiltQuery(r, b, o, w.env) && o.deleted
    ensures r.QueryReady? && Accepted(r.query)
    ensures forall slot :: slot in Matching(s, r.query, w) <==>
              slot in s && Alive(s[slot]) && AllHold(c.where, ViewOf(s[slot], w.env), w.env)
  {
    BuiltQueryMeans(r, c, b, o, w.env);
    forall slot | slot in s
      ensures Matches(r.query, s[slot], w.env) <==> Alive(s[slot]) && AllHold(c.where, ViewOf(s[slot], w.env), w.env)
    {
      ViewShows(s[slot], w.env);
    }
  }

  /** Counting does not depend on the order in which keys are visited. */
  method CountOnce(repository: Repository, builder: FilterBuilder) returns (r: Result<nat>)
    requires repository.o.deleted
    requires Conjoinable(builder.where, repository.collection.w.env) && builder.BuildOutcome().Filtered?
    ensures r.Done? && exists q :: repository.IsQueryOf(q, builder)
    ensures forall q :: repository.IsQueryOf(q, builder) ==>
            r.value == |repository.Asking(repository.collection.docs, q)|
  {
    AlwaysAsks(repository, builder);
    r := repository.Count(builder);
    ghost var q :| repository.IsQueryOf(q, builder) && r.value == |repository.Asking(repository.collection.docs, q)|;
    SameMatches(repository, builder, q, repository.collection.docs);
  }

  /** Deleting many documents reports the count there was before, leaves none to count,
      and removes none from the store. */
  method DeleteManyClears(repository: Repository, builder: FilterBuilder, now: int)
    returns (before: Result<nat>, deleted: Result<nat>, after: Result<nat>)
    requires repository.o.deleted
    requires Conjoinable(builder.where, repository.collection.w.env) && builder.BuildOutcome().Filtered?
    modifies repository.collection
    ensures before.Done? && deleted.Done? && after.Done?
    ensures deleted.value == before.value && after.value == 0
    ensures repository.collection.docs.Keys == old(repository.collection.docs.Keys)
  {
    AlwaysAsks(repository, builder);
    before := CountOnce(repository, builder);
    ghost var s := repository.collection.docs;
    ghost var op;
    deleted, op := repository.DeleteDocuments(builder, true, now);
    NoneLeft(repository, builder, op, op.q, s, repository.collection.docs, deleted.value);
    after := CountOnce(repository, builder);
  }

  /** Once all documents a builder asks for are marked, it asks for none. */
  lemma NoneLeft(repository: Repository, builder: FilterBuilder, op: Op, q: Query, s: Store, s': Store, count: nat)
    requires repository.o.deleted && op.Deleting? && repository.Deleted(s, s', op, true, count)
    requires Conjoinable(builder.where, repository.collection.w.env) && builder.BuildOutcome().Filtered?
    requires repository.IsQueryOf(op.q, builder) && repository.IsQueryOf(q, builder)
    ensures repository.Asking(s', q) == {}
  {
    MatchingOf(repository, builder, op.q, s);
    MatchingOf(repository, builder, q, s');
    MarkingSetsTheDate(op.now, repository.collection.w);
    forall slot | slot in s' ensures slot !in repository.Asking(s', q) {
      if slot in repository.Asking(s, op.q) {
        assert s'[slot] == s[slot][Update.DELETED := Instant(op.now)];
      } else {
        assert s'[slot] == s[slot];
      }
    }
  }

  ghost predicate MatchesLiving(repository: Repository, builder: FilterBuilder, q: Query, s: Store)
    reads repository, builder
  {
    forall slot :: slot in Matching(s, FixQuery(q, repository.o), repository.collection.w) <==>
      && slot in s && Alive(s[slot])
      && AllHold(builder.where, ViewOf(s[slot], repository.collection.w.env), repository.collection.w.env)
  }

  lemma MatchingOf(repository: Repository, builder: FilterBuilder, q: Query, s: Store)
    requires repository.o.deleted && Conjoinable(builder.where, repository.collection.w.env)
    requires builder.BuildOutcome().Filtered? && repository.IsQueryOf(q, builder)
    ensures MatchesLiving(repository, builder, q, s)
  {
    var filter: MongoFilter :| filter.where == q &&
      IsBuiltQuery(QueryReady(FixQuery(q, repository.o), filter), builder.BuildOutcome(), repository.o,
        repository.collection.w.env);
    MatchingMeans(QueryReady(FixQuery(q, repository.o), filter), builder.Value(), builder.BuildOutcome(),
                  repository.o, s, repository.collection.w);
  }

  lemma SameMatches(repository: Repository, builder: FilterBuilder, q: Query, s: Store)
    requires repository.o.deleted && Conjoinable(builder.where, repository.collection.w.env)
    requires builder.BuildOutcome().Filtered? && repository.IsQueryOf(q, builder)
    ensures forall q' :: repository.IsQueryOf(q', builder) ==>
              Matching(s, FixQuery(q', repository.o), repository.collection.w) ==
                Matching(s, FixQuery(q, repository.o), repository.collection.w)
  {
    MatchingOf(repository, builder, q, s);
    forall q' | repository.IsQueryOf(q', builder)
      ensures Matching(s, FixQuery(q', repository.o), repository.collection.w) ==
              Matching(s, FixQuery(q, repository.o), repository.collection.w)
    {
      MatchingOf(repository, builder, q', s);
    }
  }

  lemma AlwaysAsks(repository: Repository, builder: FilterBuilder)
    requires Conjoinable(builder.where, repository.collection.w.env) && builder.BuildOutcome().Filtered?
    ensures !repository.FailsToAsk(builder)
  {
    forall b: BuiltQuery | IsBuiltQuery(b, builder.BuildOutcome(), repository.o, repository.collection.w.env)
      ensures b.QueryReady? && Accepted(b.query)
    {
      BuiltQueryMeans(b, builder.Value(), builder.BuildOutcome(), repository.o, repository.collection.w.env);
    }
  }
}
