/** Which stored fields a query returns: what the caller asks for, what the schema always
    or never includes, and what the server makes of it. */
module Projections {
  import opened Wrappers
  import opened Lbq
  import opened FieldResolution
  import FilterBuilders

  type Projection = map<string, bool>

  const STORED_ID := "_id"

  // ----- the projection that is sent -----

  /** Fields the schema does not declare are left out. */
  function Kept(asked: Projection, env: Env): Projection {
    map k | k in asked && Resolve(k, env.fields).Some? :: asked[k]
  }

  function Completed(asked: Projection, env: Env): Projection {
    Kept(asked, env) + Constant(env.required, true) - env.banned
  }

  function Constant(names: set<string>, value: bool): Projection { map k | k in names :: value }

  /** None sends no projection. */
  function Projected(asked: Projection, env: Env): Option<Projection> {
    if asked != map[] then
      Some(if Completed(asked, env) == map[] then map[STORED_ID := true] else Completed(asked, env))
    else if env.banned != {} then Some(Constant(env.banned, false))
    else None
  }

  method BuildProjection(asked: Projection, env: Env) returns (r: Option<Projection>)
    ensures r == Projected(asked, env)
  {
    if |asked| > 0 {
      var projection := KeepDeclared(asked, env);
      projection := SetAll(projection, env.required, true);
      projection := projection - env.banned;
      r := Some(if |projection| > 0 then projection else map[STORED_ID := true]);
    } else if |env.banned| > 0 {
      var projection := SetAll(map[], env.banned, false);
      assert projection == Constant(env.banned, false);
      r := Some(projection);
    } else {
      r := None;
    }
  }

  method KeepDeclared(asked: Projection, env: Env) returns (projection: Projection)
    ensures projection == Kept(asked, env)
  {
    projection := map[];
    var rest := asked.Keys;
    while rest != {}
      invariant rest <= asked.Keys
      invariant projection == map k | k in asked && k !in rest && Resolve(k, env.fields).Some? :: asked[k]
    {
      var key :| key in rest;
      var field := GetFieldIfExists(key, env.fields);
      if field.Some? {
        projection := projection[key := asked[key]];
      }
      rest := rest - {key};
    }
  }

  method SetAll(start: Projection, names: set<string>, value: bool) returns (projection: Projection)
    ensures projection == start + Constant(names, value)
  {
    projection := start;
    var rest := names;
    while rest != {}
      invariant rest <= names && projection == start + Constant(names - rest, value)
    {
      var name :| name in rest;
      projection, rest := projection[name := value], rest - {name};
    }
  }

  /** The schema's own fields, and of the caller's those that are declared or lie below what is. */
  predicate Chosen(asked: Projection, env: Env, k: string, value: bool) {
    && k !in env.banned
    && if k in env.required then value
       else k in asked && asked[k] == value && exists above <- env.fields.Keys :: Ancestor(above, k)
  }

  /** What is sent: of what the caller names just this, or the id alone where nothing is left;
      and where the caller names nothing, what the schema keeps back. */
  lemma SentProjection(asked: Projection, env: Env, k: string, value: bool)
    ensures asked != map[] ==>
              && Projected(asked, env).Some?
              && (k in Projected(asked, env).value && Projected(asked, env).value[k] == value <==>
                  || Chosen(asked, env, k, value)
                  || (k == "_id" && value && forall other, x :: !Chosen(asked, env, other, x)))
    ensures asked == map[] ==>
              if env.banned == {} then Projected(asked, env).None?
              else Projected(asked, env) == Some(map name | name in env.banned :: false)
  {
    var c := Completed(asked, env);
    forall other, x ensures Chosen(asked, env, other, x) <==> other in c && c[other] == x {
      ResolveIsLongestAncestor(other, env.fields);
    }
    if c != map[] {
      var some :| some in c;
      assert Chosen(asked, env, some, c[some]);
    }
  }

  // ----- what the server returns -----

  predicate Includes(p: Projection) {
    (exists k <- p.Keys :: k != STORED_ID && p[k]) || (p.Keys == {STORED_ID} && p[STORED_ID])
  }

  /** Whether the value stored at a path comes back; the id does unless it is left out. */
  predicate Returned(p: Option<Projection>, path: string) {
    match p
    case None => true
    case Some(p) =>
      if Ancestor(STORED_ID, path) then STORED_ID in p ==> p[STORED_ID]
      else if Includes(p) then exists k <- p.Keys :: p[k] && Ancestor(k, path)
      else !exists k <- p.Keys :: !p[k] && Ancestor(k, path)
  }

  /** Nothing stored at the path or below it comes back. */
  ghost predicate Hidden(p: Option<Projection>, path: string) {
    forall below :: Ancestor(path, below) ==> !Returned(p, below)
  }

  predicate PlainName(name: string) { name != STORED_ID && '.' !in name }

  /** The schema's own names: no dots, no id, and none both always and never included. */
  predicate PlainRules(env: Env) {
    && env.required !! env.banned
    && (forall name <- env.required :: PlainName(name)) && forall name <- env.banned :: PlainName(name)
  }

  /** A plain name has no path above it, and lies above no other plain name. */
  lemma PlainAncestor(k: string, name: string)
    requires '.' !in name && Ancestor(k, name)
    ensures k == name
  {}

  /** What lies below a plain name is not part of the id. */
  lemma NotTheId(name: string, below: string)
    requires PlainName(name) && Ancestor(name, below)
    ensures !Ancestor(STORED_ID, below)
  {
    assert '.' !in STORED_ID;
    if Ancestor(STORED_ID, below) {
      AncestorsCompare(STORED_ID, name, below);
    }
  }

  lemma CompletedAt(asked: Projection, env: Env, k: string)
    ensures k in Completed(asked, env) <==> (k in Kept(asked, env) || k in env.required) && k !in env.banned
    ensures k in Completed(asked, env) ==> (Completed(asked, env)[k] <==> k in env.required || asked[k])
  {}

  /** A field the schema always includes comes back from every query the server takes. */
  lemma RequiredIsReturned(asked: Projection, env: Env, name: string)
    requires PlainRules(env) && name in env.required
    ensures Returned(Projected(asked, env), name)
  {
    assert PlainName(name);
    NotTheId(name, name);
    if asked != map[] {
      CompletedAt(asked, env, name);
      assert Completed(asked, env)[name] && PlainName(name) && Ancestor(name, name);
    } else {
      forall k <- env.banned ensures !Ancestor(k, name) {
        assert PlainName(name);
        if Ancestor(k, name) { PlainAncestor(k, name); }
      }
    }
  }

  /** The caller picks fields to return, or the schema does. */
  predicate Picks(asked: Projection, env: Env) {
    || env.required != {}
    || (exists k <- Kept(asked, env).Keys :: k !in env.banned && k != STORED_ID && asked[k])
    || (forall k <- Kept(asked, env).Keys :: k in env.banned || (k == STORED_ID && asked[k]))
  }

  lemma PicksIsIncludes(asked: Projection, env: Env)
    requires asked != map[] && PlainRules(env)
    ensures Includes(Projected(asked, env).value) <==> Picks(asked, env)
  {
    assert STORED_ID in env.banned ==> PlainName(STORED_ID);
    CompletedIs(asked, env);
    if env.required != {} {
      var name :| name in env.required;
      assert PlainName(name) && Completed(asked, env)[name];
    } else {
      PicksUnaided(asked, env);
    }
  }

  lemma PicksUnaided(asked: Projection, env: Env)
    requires asked != map[] && env.required == {} && STORED_ID !in env.banned
    ensures Includes(Projected(asked, env).value) <==> Picks(asked, env)
  {
    var (kept, c) := (Kept(asked, env), Completed(asked, env));
    assert c == kept - env.banned;
    assert c == map[] <==> kept.Keys <= env.banned by {
      forall k <- kept.Keys ensures k in env.banned || k in c {}
    }
    if c != map[] {
      assert forall k <- c.Keys :: c[k] == asked[k];
    }
  }

  lemma CompletedIs(asked: Projection, env: Env)
    ensures forall k ::
              && (k in Completed(asked, env) <==> (k in Kept(asked, env) || k in env.required) && k !in env.banned)
              && (k in Completed(asked, env) ==> (Completed(asked, env)[k] <==> k in env.required || asked[k]))
  {
    forall k
      ensures k in Completed(asked, env) <==> (k in Kept(asked, env) || k in env.required) && k !in env.banned
      ensures k in Completed(asked, env) ==> (Completed(asked, env)[k] <==> k in env.required || asked[k])
    {
      CompletedAt(asked, env, k);
    }
  }

  /** The caller asks for something below the path. */
  predicate AsksBelow(asked: Projection, path: string, env: Env) {
    exists k <- Kept(asked, env).Keys :: k != path && asked[k] && Ancestor(path, k)
  }

  /** Two paths above the same one: one is above the other. */
  lemma AncestorsCompare(a: string, b: string, name: string)
    requires Ancestor(a, name) && Ancestor(b, name)
    ensures Ancestor(a, b) || Ancestor(b, a)
  {
    if |a| <= |b| { assert a == b[..|a|]; } else { assert b == a[..|b|]; }
  }

  lemma OnlyAskedIsBelow(asked: Projection, env: Env, name: string, k: string)
    requires asked != map[] && PlainRules(env) && name in env.banned
    requires k in Projected(asked, env).value && Projected(asked, env).value[k]
    requires Ancestor(k, name) || Ancestor(name, k)
    ensures AsksBelow(asked, name, env)
  {
    CompletedAt(asked, env, k);
    CompletedAt(asked, env, name);
    assert PlainName(name) && '.' !in STORED_ID;
    if Ancestor(k, name) { PlainAncestor(k, name); }
    if '.' !in k { PlainAncestor(name, k); }
    assert k in env.required ==> PlainName(k);
  }

  /** A field the schema never includes is kept back exactly when the caller names no
      fields at all, or fields are picked and none of them lies below it. Leaving other
      fields out brings it back. */
  lemma BannedIsHidden(asked: Projection, env: Env, name: string)
    requires PlainRules(env) && name in env.banned
    ensures Hidden(Projected(asked, env), name) <==>
            asked == map[] || (Picks(asked, env) && !AsksBelow(asked, name, env))
  {
    var p := Projected(asked, env);
    assert PlainName(name) && Ancestor(name, name);
    NotTheId(name, name);
    if asked == map[] {
      assert !p.value[name];
      forall below | Ancestor(name, below) ensures !Returned(p, below) {
        NotTheId(name, below);
      }
    } else {
      PicksIsIncludes(asked, env);
      if Picks(asked, env) {
        PickedIsHidden(asked, env, name);
      } else {
        forall k <- p.value.Keys ensures !Ancestor(k, name) {
          CompletedAt(asked, env, k);
          if Ancestor(k, name) { PlainAncestor(k, name); }
        }
        assert Returned(p, name);
      }
    }
  }

  lemma PickedIsHidden(asked: Projection, env: Env, name: string)
    requires asked != map[] && PlainRules(env) && name in env.banned && Includes(Projected(asked, env).value)
    ensures Hidden(Projected(asked, env), name) <==> !AsksBelow(asked, name, env)
  {
    var p := Projected(asked, env);
    if AsksBelow(asked, name, env) {
      var k :| k in Kept(asked, env) && k != name && asked[k] && Ancestor(name, k);
      CompletedAt(asked, env, k);
      assert k in env.banned ==> PlainName(k);
      NotTheId(name, k);
      assert Ancestor(k, k) && Returned(p, k);
    } else {
      forall below, k | Ancestor(name, below) && k in p.value && p.value[k]
        ensures !Ancestor(k, below) && !Ancestor(STORED_ID, below)
      {
        assert PlainName(name);
        NotTheId(name, below);
        if Ancestor(k, below) {
          AncestorsCompare(k, name, below);
          OnlyAskedIsBelow(asked, env, name, k);
        }
      }
    }
  }

  /** Projections name fields as in JSON: a field the schema never includes comes back even
      when the caller names no fields if it is stored under another name. */
  lemma RenamedIsReturned(env: Env, stored: string)
    requires PlainRules(env) && PlainName(stored) && stored !in env.banned
    ensures Returned(Projected(map[], env), stored)
  {
    NotTheId(stored, stored);
    forall k <- env.banned ensures !Ancestor(k, stored) {
      if Ancestor(k, stored) { PlainAncestor(k, stored); }
    }
  }

  /** Build has seen to it that a filter does not mix inclusion and exclusion; with the
      schema's own fields the projection is mixed all the same, exactly when there are
      some that are always included and some other field is left out. */
  lemma MixedBySchema(asked: Projection, env: Env)
    requires asked != map[] && PlainRules(env) && FilterBuilders.ValidProjection(asked)
    ensures !FilterBuilders.ValidProjection(Projected(asked, env).value) <==>
            && env.required != {}
            && exists k <- Kept(asked, env).Keys :: k !in env.banned + env.required && k != STORED_ID && !asked[k]
  {
    CompletedIs(asked, env);
  }
}
