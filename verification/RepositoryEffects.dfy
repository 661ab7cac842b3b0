/** What inserts and updates leave in the collection, in the caller's own terms. */
module RepositoryEffects {
  import opened Wrappers
  import opened Lbq
  import opened Mongo
  import opened WhereBuilders
  import opened FilterBuilders
  import opened RepositoryQuery
  import opened Repositories
  import opened RepositoryRuns
  import opened CompilerCorrectness
  import Update = UpdateDocument

  // ----- inserts -----

  /** With soft deletion, what is inserted is counted at once by every builder whose conditions
      hold of it, and by no other. */
  method InsertIsCounted(repository: Repository, builder: FilterBuilder, fields: Document, now: int)
    returns (before: Result<nat>, slot: nat, after: Result<nat>)
    requires repository.o.deleted
    requires Conjoinable(builder.where, repository.collection.w.env) && builder.BuildOutcome().Filtered?
    modifies repository.collection
    ensures before.Done? && after.Done? && slot in repository.collection.docs
    ensures var (d, env) := (repository.collection.docs[slot], repository.collection.w.env);
            && repository.Inserted(fields, d, now)
            && after.value == before.value + if AllHold(builder.where, ViewOf(d, env), env) then 1 else 0
  {
    AlwaysAsks(repository, builder);
    before := CountOnce(repository, builder);
    ghost var s := repository.collection.docs;
    slot := repository.Insert(fields, now);
    after := CountOnce(repository, builder);
    ghost var q :| repository.IsQueryOf(q, builder);
    MatchingOf(repository, builder, q, repository.collection.docs);
    OneMoreAsked(repository, builder, q, s, slot, repository.collection.docs[slot]);
  }

  lemma OneMoreAsked(repository: Repository, builder: FilterBuilder, q: Query, s: Store, slot: nat, d: Document)
    requires repository.o.deleted && slot !in s && Alive(d)
    requires MatchesLiving(repository, builder, q, s[slot := d])
    ensures var env := repository.collection.w.env;
            |repository.Asking(s[slot := d], q)| ==
            |repository.Asking(s, q)| + if AllHold(builder.where, ViewOf(d, env), env) then 1 else 0
  {
    var (fixed, w) := (FixQuery(q, repository.o), repository.collection.w);
    OneMoreMatches(s, fixed, w, slot, d);
    assert slot in Matching(s[slot := d], fixed, w) <==> Matches(fixed, d, w.env);
  }

  lemma OneMoreMatches(s: Store, q: Query, w: World, slot: nat, d: Document)
    requires slot !in s
    ensures |Matching(s[slot := d], q, w)| == |Matching(s, q, w)| + if Matches(q, d, w.env) then 1 else 0
  {
    var more := s[slot := d];
    assert forall x | x in s :: more[x] == s[x];
    assert Matching(more, q, w) == Matching(s, q, w) + if Matches(q, d, w.env) then {slot} else {};
  }

  // ----- updates -----

  /** The caller or the repository asks for the time of the update. */
  ghost predicate Dated(u: Update.Update, o: Update.Options, field: string) {
    || (field == "modified" && o.modified)
    || (field !in Update.Managed(o) && Update.CURRENT_DATE in u
        && exists v :: Update.Gives(u[Update.CURRENT_DATE], field, v))
  }

  /** What an update does to one field. */
  ghost predicate FieldEffect(u: Update.Update, o: Update.Options, now: int, d: Document, d': Document, field: string) {
    && (forall v :: Update.SetsTo(u, field, v) && field !in Update.Managed(o) ==> Lookup(d', field) == Some(Wire(v)))
    && (Dated(u, o, field) ==> Lookup(d', field) == Some(Instant(now)))
    && ((field in Update.Managed(o) || !exists v :: Update.SetsTo(u, field, v)) && !Dated(u, o, field) ==>
          Lookup(d', field) == Lookup(d, field))
  }

  /** Fields asked to be set hold what was asked for as it is sent, dated ones the time, and all
      others what they held. */
  ghost predicate Effect(u: Update.Update, o: Update.Options, now: int, d: Document, d': Document) {
    forall field :: FieldEffect(u, o, now, d, d', field)
  }

  lemma DatesAreAsked(u: Update.Update, prepared: Update.Update, o: Update.Options, now: int, field: string)
    requires Update.Prepare(u, o, Update.NO_FLAGS, Update.NO_FLAGS, now) == Update.Ready(prepared)
    ensures Update.Names(prepared, Update.CurrentDate, field) <==> Dated(u, o, field)
  {
    Update.ManagedFields(o);
    if Update.CURRENT_DATE in u {
      if Update.Names(u, Update.CurrentDate, field) {
        Update.SetFieldsGive(u[Update.CURRENT_DATE], field, Update.SetFields(u[Update.CURRENT_DATE]).value[field]);
      }
      if v :| Update.Gives(u[Update.CURRENT_DATE], field, v) {
        Update.SetFieldsGive(u[Update.CURRENT_DATE], field, v);
      }
    }
    if Update.CURRENT_DATE in u ==> u[Update.CURRENT_DATE].Fields? {
      Update.CurrentDates(u, o, Update.NO_FLAGS, Update.NO_FLAGS, now, field);
    } else {
      Update.UnmanagedDatesAreKept(u, o, Update.NO_FLAGS, Update.NO_FLAGS, now);
    }
  }

  lemma SettingIsAsked(u: Update.Update, prepared: Update.Update, o: Update.Options, now: int, field: string, v: Value)
    requires Update.Prepare(u, o, Update.NO_FLAGS, Update.NO_FLAGS, now) == Update.Ready(prepared)
    requires !Update.EscapesRewriting(u, o) && FieldsUnder(prepared, Update.Set).Some?
    ensures var sent := FieldsUnder(prepared, Update.Set).value;
            field in sent && sent[field] == v <==> Update.SetsTo(u, field, v) && field !in Update.Managed(o)
  {
    if Update.SET in prepared { Update.SetFieldsGive(prepared[Update.SET], field, v); }
    if Update.SetsTo(u, field, v) && field !in Update.Managed(o) {
      Update.AskedIsSet(u, o, Update.NO_FLAGS, Update.NO_FLAGS, now, field, v);
    } else if Update.SET in prepared && Update.Gives(prepared[Update.SET], field, v) {
      Update.SetIsAsked(u, o, Update.NO_FLAGS, Update.NO_FLAGS, now, field, v);
    }
  }

  /** A document rewritten by a prepared update shows the effect of the caller's update. */
  lemma RewrittenHasEffect(u: Update.Update, prepared: Update.Update, o: Update.Options, now: int, d: Document,
          d': Document, w: World)
    requires Update.Prepare(u, o, Update.NO_FLAGS, Update.NO_FLAGS, now) == Update.Ready(prepared)
    requires !HasOtherOperators(u) && !Update.EscapesRewriting(u, o)
    requires ApplyUpdate(prepared, d, now, w) == Some(d')
    ensures Effect(u, o, now, d, d')
  {
    NoOthersAdded(prepared, u, o, Update.NO_FLAGS, now);
    forall field ensures FieldEffect(u, o, now, d, d', field) {
      AppliedField(prepared, d, d', now, w, field);
      DatesAreAsked(u, prepared, o, now, field);
      var sent := FieldsUnder(prepared, Update.Set).value;
      forall v
        ensures field in sent && sent[field] == v <==> Update.SetsTo(u, field, v) && field !in Update.Managed(o)
      {
        SettingIsAsked(u, prepared, o, now, field, v);
      }
      if field in sent { assert Update.SetsTo(u, field, sent[field]); }
    }
  }

  /** What the server does to one field. */
  lemma AppliedField(prepared: Update.Update, d: Document, d': Document, now: int, w: World, field: string)
    requires !HasOtherOperators(prepared) && ApplyUpdate(prepared, d, now, w) == Some(d')
    ensures FieldsUnder(prepared, Update.Set).Some?
    ensures var dated := Update.Names(prepared, Update.CurrentDate, field);
            var sent := FieldsUnder(prepared, Update.Set).value;
            && !(dated && field in sent)
            && Lookup(d', field) ==
               if dated then Some(Instant(now)) else if field in sent then Some(Wire(sent[field])) else Lookup(d, field)
  {}

  lemma AllHaveEffect(repository: Repository, op: Op, s: Store, s': Store, many: bool, count: nat)
    requires op.Updating? && repository.Updated(s, s', op, many, count)
    requires !HasOtherOperators(op.u) && !Update.EscapesRewriting(op.u, repository.o)
    ensures many ==>
              forall slot <- s.Keys ::
                slot in s' && if slot in repository.Asking(s, op.q)
                              then Effect(op.u, repository.o, op.now, s[slot], s'[slot]) else s'[slot] == s[slot]
    ensures !many ==>
              if repository.Asking(s, op.q) == {} then s' == s
              else exists slot <- repository.Asking(s, op.q) ::
                     && slot in s' && Effect(op.u, repository.o, op.now, s[slot], s'[slot])
                     && s' == s[slot := s'[slot]]
  {
    var prepared: Update.Update :| repository.Sends(prepared, op.u, op.now)
      && repository.RewrittenBy(s, s', FixQuery(op.q, repository.o), prepared, op.now, many, count);
    forall slot, d' | slot in s && ApplyUpdate(prepared, s[slot], op.now, repository.collection.w) == Some(d')
      ensures Effect(op.u, repository.o, op.now, s[slot], d')
    {
      RewrittenHasEffect(op.u, prepared, repository.o, op.now, s[slot], d', repository.collection.w);
    }
  }

  /** After a successful update every document it was for shows its effect, or one of them if
      there is any, and every other document is as before. */
  method UpdatesAsAsked(repository: Repository, builder: FilterBuilder, u: Update.Update, many: bool, now: int)
    returns (r: Result<nat>, ghost q: Query)
    requires !HasOtherOperators(u) && !Update.EscapesRewriting(u, repository.o)
    modifies repository.collection
    ensures repository.collection.docs.Keys == old(repository.collection.docs.Keys)
    ensures r.Done? ==> repository.IsQueryOf(q, builder)
    ensures r.Done? && many ==>
              forall slot <- repository.collection.docs.Keys ::
                if slot in repository.Asking(old(repository.collection.docs), q)
                then Effect(u, repository.o, now, old(repository.collection.docs)[slot],
                            repository.collection.docs[slot])
                else repository.collection.docs[slot] == old(repository.collection.docs)[slot]
    ensures r.Done? && !many ==>
              if repository.Asking(old(repository.collection.docs), q) == {}
              then repository.collection.docs == old(repository.collection.docs)
              else exists slot <- repository.Asking(old(repository.collection.docs), q) ::
                     && Effect(u, repository.o, now, old(repository.collection.docs)[slot],
                               repository.collection.docs[slot])
                     && repository.collection.docs ==
                        old(repository.collection.docs)[slot := repository.collection.docs[slot]]
  {
    ghost var s := repository.collection.docs;
    ghost var op;
    r, op := repository.UpdateDocuments(builder, u, many, now);
    q := op.q;
    if r.Done? {
      assert op.u == u && op.now == now;
      AllHaveEffect(repository, op, s, repository.collection.docs, many, r.value);
    }
  }
}
