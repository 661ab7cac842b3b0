/** What a request's JSON asks for, down to its words and numbers. */
module RequestMeanings {
  import opened Wrappers
  import opened Strings
  import opened Lbq
  import opened WhereCompiler
  import CompilerCorrectness
  import opened QueryParser
  import opened OrderParser
  import opened FilterParser
  import FilterBuilders
  import RepositoryQuery

  // ----- conditions -----

  ghost predicate Finds(j: Json, view: View, env: Env) {
    ParseWhere(j).Some? && Holds(ParseWhere(j).value, view, env)
  }

  /** One word with its operand under a field. */
  function Asked(path: string, word: string, v: Json): Json {
    JObj([Member(Path(path), JObj([Member(Lex(word), v)]))])
  }

  lemma EntryFinds(j: Json, k: Key, n: Node, view: View, env: Env)
    requires ParseWhere(j) == Some(Where(map[k := n]))
    ensures Finds(j, view, env) <==> HoldsEntry(k, n, view, env)
  {
    var w := Where(map[k := n]);
    assert w.m[k] == n;
  }

  lemma AskedMeans(path: string, word: string, v: Json, view: View, env: Env)
    requires path in env.fields && !v.JObj? && IsOperator(Lex(word)) && !Lex(word).And? && !Lex(word).Or?
    requires Lex(word).Inq? || Lex(word).Nin? ==> v.JArr?
    ensures Finds(Asked(path, word, v), view, env) <==>
            Test(Lex(word), env.fields[path], RawValue(v), Lookup(view, path), env)
  {
    var (op, x) := (Lex(word), RawValue(v));
    OneMember(op, v, Atom(x));
    UnderField(path, JObj([Member(op, v)]), Where(map[op := Atom(x)]), view, env);
    OneOperator(op, x, env.fields[path], Lookup(view, path), env);
  }

  lemma UnderField(path: string, j: Json, ops: Where, view: View, env: Env)
    requires path in env.fields && ParseWhere(j) == Some(ops)
    ensures Finds(JObj([Member(Path(path), j)]), view, env) <==>
            HoldsOps(ops, env.fields[path], Lookup(view, path), env)
  {
    OneMember(Path(path), j, Sub(ops));
    EntryFinds(JObj([Member(Path(path), j)]), Path(path), Sub(ops), view, env);
  }

  lemma OneOperator(op: Key, v: Value, f: Field, x: Option<Value>, env: Env)
    requires !op.Like? && !op.NLike?
    ensures HoldsOps(Where(map[op := Atom(v)]), f, x, env) <==> Test(op, f, v, x, env)
  {
    var ops := Where(map[op := Atom(v)]);
    assert HoldsOps(ops, f, x, env) <==> Test(op, f, ops.m[op].v, x, env);
  }

  /** Equality of numbers, */
  lemma NumbersAreEqual(path: string, n: real, x: real, view: View, env: Env)
    requires path in env.fields && Lookup(view, path) == Some(Num(x))
    ensures Finds(Asked(path, "eq", JNum(n)), view, env) <==> x == n
    ensures Finds(Asked(path, "neq", JNum(n)), view, env) <==> x != n
  {
    AskedMeans(path, "eq", JNum(n), view, env);
    AskedMeans(path, "neq", JNum(n), view, env);
  }

  /** and their order. */
  lemma NumbersAreCompared(path: string, n: real, x: real, view: View, env: Env)
    requires path in env.fields && Lookup(view, path) == Some(Num(x))
    ensures Finds(Asked(path, "gt", JNum(n)), view, env) <==> x > n
    ensures Finds(Asked(path, "gte", JNum(n)), view, env) <==> x >= n
    ensures Finds(Asked(path, "lt", JNum(n)), view, env) <==> x < n
    ensures Finds(Asked(path, "lte", JNum(n)), view, env) <==> x <= n
  {
    AskedMeans(path, "gt", JNum(n), view, env);
    AskedMeans(path, "gte", JNum(n), view, env);
    AskedMeans(path, "lt", JNum(n), view, env);
    AskedMeans(path, "lte", JNum(n), view, env);
  }

  /** Lists, between strings. */
  lemma WordsAreFound(path: string, words: seq<string>, view: View, env: Env)
    requires path in env.fields && env.fields[path].dataType == "string"
    ensures Finds(Asked(path, "inq", Texts(words)), view, env) <==> Listed(words, Lookup(view, path))
    ensures Finds(Asked(path, "nin", Texts(words)), view, env) <==> !Listed(words, Lookup(view, path))
  {
    AskedMeans(path, "inq", Texts(words), view, env);
    AskedMeans(path, "nin", Texts(words), view, env);
    WordsAmong(env.fields[path], words, Lookup(view, path), env);
  }

  function Texts(words: seq<string>): Json { JArr(seq(|words|, i requires 0 <= i < |words| => JStr(words[i]))) }

  predicate Listed(words: seq<string>, x: Option<Value>) { exists word <- words :: x == Some(Str(word)) }

  /** What is there, and what is not. */
  lemma AbsenceIsFound(path: string, there: bool, view: View, env: Env)
    requires path in env.fields
    ensures Finds(Asked(path, "exists", JBool(there)), view, env) <==> (there <==> path in view)
    ensures Finds(Asked(path, "eq", JNull), view, env) <==> path !in view || view[path] == Null
    ensures Finds(Asked(path, "neq", JNull), view, env) <==> path in view && view[path] != Null
  {
    AskedMeans(path, "exists", JBool(there), view, env);
    AskedMeans(path, "eq", JNull, view, env);
    AskedMeans(path, "neq", JNull, view, env);
  }

  /** The text of a date field is an instant, and that of an id field an id, where they can be
      read as such; the numbers that a program compares a date with are seconds. */
  lemma TextIsTyped(path: string, text: string, x: Value, seconds: int, view: View, env: Env)
    requires path in env.fields && Lookup(view, path) == Some(x)
    ensures var f := env.fields[path];
            && (f.dataType == "Date" && x.Instant? && env.parseDate(text).Some? ==>
                  (Finds(Asked(path, "gt", JStr(text)), view, env) <==> x.ms > env.parseDate(text).value))
            && (f.dataType == "Date" && x.Instant? ==>
                  (Test(Gt, f, Int(seconds), Some(x), env) <==> x.ms > 1000 * seconds))
            && (f.dataType == "ObjectID" && x.ObjectId? && env.oidFromHex(text).Some? ==>
                  (Finds(Asked(path, "eq", JStr(text)), view, env) <==> x.id == env.oidFromHex(text).value))
  {
    AskedMeans(path, "gt", JStr(text), view, env);
    AskedMeans(path, "eq", JStr(text), view, env);
  }

  /** Patterns, with their options. */
  lemma PatternsAreSought(path: string, nlike: bool, pattern: Json, options: Option<Json>, view: View, env: Env)
    requires path in env.fields
    ensures var flags := if options.Some? then RawValue(options.value) else Null;
            Finds(JObj([Member(Path(path), PatternOf(nlike, pattern, options))]), view, env) <==>
            (nlike <==> !(path in view && env.regex(RawValue(pattern), flags, view[path])))
  {
    PatternIsRead(nlike, pattern, options);
    var (k, flags) := (if nlike then NLike else Like, if options.Some? then RawValue(options.value) else Null);
    var ops := Where(map[k := Atom(RawValue(pattern)), Options := Atom(flags)]);
    UnderField(path, PatternOf(nlike, pattern, options), ops, view, env);
    OnePattern(k, RawValue(pattern), flags, env.fields[path], Lookup(view, path), env);
  }

  lemma OnePattern(k: Key, pattern: Value, flags: Value, f: Field, x: Option<Value>, env: Env)
    requires k.Like? || k.NLike?
    ensures HoldsOps(Where(map[k := Atom(pattern), Options := Atom(flags)]), f, x, env) <==>
            (k.NLike? <==> !(x.Some? && env.regex(pattern, flags, x.value)))
  {
    var ops := Where(map[k := Atom(pattern), Options := Atom(flags)]);
    CompilerCorrectness.PatternHolds(ops, k, f, x, env);
    assert OptionsOf(ops) == flags && ops.m[k].v == pattern;
  }

  function PatternOf(nlike: bool, pattern: Json, options: Option<Json>): Json {
    var word := Member(Lex(if nlike then "nlike" else "like"), pattern);
    JObj(if options.Some? then [word, Member(Lex("options"), options.value)] else [word])
  }

  lemma PatternIsRead(nlike: bool, pattern: Json, options: Option<Json>)
    ensures var (k, flags) := (if nlike then NLike else Like, if options.Some? then RawValue(options.value) else Null);
            ParseWhere(PatternOf(nlike, pattern, options)) ==
            Some(Where(map[k := Atom(RawValue(pattern)), Options := Atom(flags)]))
  {
    var (ms, k) := (PatternOf(nlike, pattern, options).members, if nlike then NLike else Like);
    GetByKey(ms, Like);
    GetByKey(ms, Options);
    assert ms[0] == Member(k, pattern) && (options.Some? ==> ms[1] == Member(Options, options.value));
    FirstIsFound(ms, k, 0);
    if options.Some? { FirstIsFound(ms, Options, 1); }
  }

  lemma WordsAmong(f: Field, words: seq<string>, x: Option<Value>, env: Env)
    requires f.dataType == "string"
    ensures Among(x, ElementsOf(f, RawValue(Texts(words)), env)) <==> Listed(words, x)
  {
    var all := ElementsOf(f, RawValue(Texts(words)), env);
    forall i | 0 <= i < |words| ensures all[i] == Str(words[i]) {
      assert RawValues(Texts(words).items)[i] == Str(words[i]);
    }
    StringsAmong(all, words, x);
  }

  lemma StringsAmong(all: seq<Value>, words: seq<string>, x: Option<Value>)
    requires |all| == |words| && forall i | 0 <= i < |words| :: all[i] == Str(words[i])
    ensures Among(x, all) <==> Listed(words, x)
  {
    if word :| word in words && x == Some(Str(word)) {
      var i :| 0 <= i < |words| && words[i] == word;
      assert Equals(x, all[i]);
    }
  }

  // ----- conditions put together -----

  ghost predicate EachFinds(items: seq<Json>, view: View, env: Env) {
    forall i | 0 <= i < |items| :: Finds(items[i], view, env)
  }

  ghost predicate AnyFinds(items: seq<Json>, view: View, env: Env) {
    exists i | 0 <= i < |items| :: Finds(items[i], view, env)
  }

  /** An `and` asks for all of its members and an `or` for one of them. */
  lemma GroupsMean(or: bool, items: seq<Json>, view: View, env: Env)
    requires forall i | 0 <= i < |items| :: ParseWhere(items[i]).Some?
    ensures Finds(JObj([Member(Lex(if or then "or" else "and"), JArr(items))]), view, env) <==>
            if or then AnyFinds(items, view, env) else EachFinds(items, view, env)
  {
    AllAreParsed(items);
    GroupMeans(if or then Or else And, items, ParseAll(items).value, view, env);
  }

  lemma GroupMeans(k: Key, items: seq<Json>, ws: seq<Where>, view: View, env: Env)
    requires (k.And? || k.Or?) && ParseAll(items) == Some(ws) && |ws| == |items|
    requires forall i | 0 <= i < |items| :: ParseWhere(items[i]) == Some(ws[i])
    ensures Finds(JObj([Member(k, JArr(items))]), view, env) <==>
            if k.Or? then AnyFinds(items, view, env) else EachFinds(items, view, env)
  {
    GroupIsRead(k, items);
    EntryFinds(JObj([Member(k, JArr(items))]), k, Group(ws), view, env);
    ListFinds(items, ws, view, env);
  }

  lemma GroupIsRead(k: Key, items: seq<Json>)
    requires (k.And? || k.Or?) && ParseAll(items).Some?
    ensures ParseWhere(JObj([Member(k, JArr(items))])) == Some(Where(map[k := Group(ParseAll(items).value)]))
  {
    OneMember(k, JArr(items), Group(ParseAll(items).value));
  }

  lemma ListFinds(items: seq<Json>, ws: seq<Where>, view: View, env: Env)
    requires |ws| == |items| && forall i | 0 <= i < |items| :: ParseWhere(items[i]) == Some(ws[i])
    ensures AllHold(ws, view, env) <==> EachFinds(items, view, env)
    ensures AnyHolds(ws, view, env) <==> AnyFinds(items, view, env)
  {}

  lemma {:induction false} AllAreParsed(items: seq<Json>)
    requires forall i | 0 <= i < |items| :: ParseWhere(items[i]).Some?
    ensures ParseAll(items).Some? && |ParseAll(items).value| == |items|
    ensures forall i | 0 <= i < |items| :: ParseAll(items).value[i] == ParseWhere(items[i]).value
  {
    if items != [] { AllAreParsed(items[..|items| - 1]); }
  }

  /** An object asks for all of its members. */
  lemma MembersMean(ms: seq<Member>, view: View, env: Env)
    requires DistinctKeys(ms) && !HasKey(ms, Like) && !HasKey(ms, NLike)
    ensures ParseWhere(JObj(ms)).Some? <==> forall i | 0 <= i < |ms| :: ParseWhere(JObj([ms[i]])).Some?
    ensures ParseWhere(JObj(ms)).Some? ==>
              (Finds(JObj(ms), view, env) <==> forall i | 0 <= i < |ms| :: Finds(JObj([ms[i]]), view, env))
  {
    GetByKey(ms, Like);
    GetByKey(ms, NLike);
    MembersAreEntries(ms);
    forall i | 0 <= i < |ms| ensures MemberMeans(ms[i], view, env) {
      assert ms[i].key != Like && ms[i].key != NLike;
      OneMemberMeans(ms[i], view, env);
    }
  }

  ghost predicate MemberMeans(m: Member, view: View, env: Env) {
    && (ParseWhere(JObj([m])).Some? <==> ParseMember(m).Some?)
    && (ParseMember(m).Some? ==>
          (Finds(JObj([m]), view, env) <==> HoldsEntry(m.key, ParseMember(m).value, view, env)))
  }

  lemma OneMemberMeans(m: Member, view: View, env: Env)
    requires !m.key.Like? && !m.key.NLike?
    ensures MemberMeans(m, view, env)
  {
    if ParseMember(m).Some? {
      OneMember(m.key, m.value, ParseMember(m).value);
      EntryFinds(JObj([m]), m.key, ParseMember(m).value, view, env);
    } else if ParseWhere(JObj([m])).Some? {
      QueryParser.Readable(m);
    }
  }

  lemma {:induction false} MembersAreEntries(ms: seq<Member>)
    requires DistinctKeys(ms)
    ensures ParseMembers(ms).Some? <==> forall i | 0 <= i < |ms| :: ParseMember(ms[i]).Some?
    ensures ParseMembers(ms).Some? ==>
              && (forall k :: k in ParseMembers(ms).value.m <==> HasKey(ms, k))
              && forall i | 0 <= i < |ms| :: ParseMember(ms[i]) == Some(ParseMembers(ms).value.m[ms[i].key])
    decreases |ms|
  {
    if ms != [] {
      var (front, last) := (ms[..|ms| - 1], ms[|ms| - 1]);
      MembersAreEntries(front);
      OneMoreKey(front, last);
      assert ms == front + [last];
      assert forall i | 0 <= i < |front| :: front[i] == ms[i] && front[i].key != last.key;
    }
  }

  lemma OneMoreKey(front: seq<Member>, last: Member)
    ensures forall k :: HasKey(front + [last], k) <==> HasKey(front, k) || k == last.key
  {
    var ms := front + [last];
    assert ms[|front|] == last && forall i | 0 <= i < |front| :: ms[i] == front[i];
    forall k | HasKey(ms, k) ensures HasKey(front, k) || k == last.key {
      var i :| 0 <= i < |ms| && ms[i].key == k;
    }
  }

  /** Objects in which operators that take lists have lists, groups have readable members, and
      no key starts with a dollar sign; a pattern makes every other member readable. */
  predicate WellFormed(j: Json)
    decreases j
  {
    && j.JObj?
    && (HasKey(j.members, Like) || HasKey(j.members, NLike) ||
        forall i | 0 <= i < |j.members| :: WellFormedMember(j.members[i]))
  }

  predicate WellFormedMember(m: Member)
    decreases m
  {
    match m.value
    case JObj(_) => !m.key.Dollar? && !m.key.And? && !m.key.Or? && WellFormed(m.value)
    case JArr(items) =>
      !m.key.Dollar? && (m.key.And? || m.key.Or? ==> forall i | 0 <= i < |items| :: WellFormed(items[i]))
    case _ => !m.key.Dollar? && !m.key.And? && !m.key.Or? && !m.key.Inq? && !m.key.Nin?
  }

  /** These are what can be read. */
  lemma {:induction false} ReadIffWellFormed(j: Json)
    ensures ParseWhere(j).Some? <==> WellFormed(j)
    decreases j, 1
  {
    if j.JObj? {
      GetByKey(j.members, Like);
      GetByKey(j.members, NLike);
      MembersReadIff(j.members);
    }
  }

  lemma {:induction false} MembersReadIff(ms: seq<Member>)
    ensures ParseMembers(ms).Some? <==> forall i | 0 <= i < |ms| :: WellFormedMember(ms[i])
    decreases ms
  {
    if ms != [] {
      var (front, last) := (ms[..|ms| - 1], ms[|ms| - 1]);
      MembersReadIff(front);
      MemberReadIff(last);
      assert ms == front + [last];
    }
  }

  lemma {:induction false} MemberReadIff(m: Member)
    ensures ParseMember(m).Some? <==> WellFormedMember(m)
    decreases m
  {
    if m.value.JObj? { ReadIffWellFormed(m.value); }
    if m.value.JArr? && (m.key.And? || m.key.Or?) { AllReadIff(m.value.items); }
  }

  lemma {:induction false} AllReadIff(items: seq<Json>)
    ensures ParseAll(items).Some? <==> forall i | 0 <= i < |items| :: WellFormed(items[i])
    decreases items
  {
    if items != [] {
      var (front, last) := (items[..|items| - 1], items[|items| - 1]);
      AllReadIff(front);
      ReadIffWellFormed(last);
      assert items == front + [last];
    }
  }

  // ----- orders -----

  /** The word in any mixture of cases; the long s is an s, too. */
  predicate SpelledAs(word: string, lower: string, upper: string)
    requires |lower| == |upper|
  {
    |word| == |lower| && forall i | 0 <= i < |word| ::
      word[i] == lower[i] || word[i] == upper[i] || (upper[i] == 'S' && word[i] == '\U{017F}')
  }

  lemma UpperSpells(word: string)
    ensures Upper(word) == ASC <==> SpelledAs(word, "asc", "ASC")
    ensures Upper(word) == DESC <==> SpelledAs(word, "desc", "DESC")
  {
    assert |Upper(word)| == |word| && forall i | 0 <= i < |word| :: Upper(word)[i] == UpperChar(word[i]);
    assert ASC == ['A', 'S', 'C'] && DESC == ['D', 'E', 'S', 'C'];
  }

  /** A string that reads as an order sorts by its field, downwards exactly when its other word
      is "desc"; otherwise that is "asc". */
  lemma OrdersSort(s: string, o: Order)
    requires OrderOf(s) == Some(o)
    ensures exists word: string ::
              && TrimSpace(s) == o.field + " " + word
              && SpelledAs(word, "asc", "ASC") != SpelledAs(word, "desc", "DESC")
              && RepositoryQuery.SortOf([o]) == [(o.field, if SpelledAs(word, "desc", "DESC") then -1 else 1)]
  {
    OrderIsSpelled(s, o);
    var word :| Spells(TrimSpace(s), o, word);
    UpperSpells(word);
  }

  /** Orders are sorted by in turn, those of a builder upwards or downwards as it is told. */
  lemma SortedInTurn(orders: seq<Order>, i: nat, field: string, ascending: bool)
    requires i < |orders|
    ensures |RepositoryQuery.SortOf(orders)| == |orders|
    ensures [RepositoryQuery.SortOf(orders)[i]] == RepositoryQuery.SortOf([orders[i]])
    ensures RepositoryQuery.SortOf([FilterBuilders.Directed(field, ascending)])
         == [(field, if ascending then 1 else -1)]
  {}

  predicate ReadAs(items: seq<Json>, orders: seq<Order>) {
    |items| == |orders| && forall i | 0 <= i < |items| :: items[i].JStr? && OrderOf(items[i].s) == Some(orders[i])
  }

  lemma {:induction false} ItemsAreOrders(items: seq<Json>, orders: seq<Order>)
    ensures OrderItems(items) == Some(orders) <==> ReadAs(items, orders)
    decreases items
  {
    if items != [] && orders != [] {
      var (end, front) := (|items| - 1, orders[..|orders| - 1]);
      ItemsAreOrders(items[..end], front);
      LastRead(items[..end], items[end], front, orders[|orders| - 1]);
      assert items == items[..end] + [items[end]] && orders == front + [orders[|orders| - 1]];
    }
  }

  lemma LastRead(items: seq<Json>, item: Json, orders: seq<Order>, order: Order)
    ensures ReadAs(items + [item], orders + [order]) <==> ReadAs(items, orders) && OrderItem(item) == Some(order)
  {
    var (all, read) := (items + [item], orders + [order]);
    assert all[|items|] == item && forall i | 0 <= i < |items| :: all[i] == items[i];
    assert read[|orders|] == order && forall i | 0 <= i < |orders| :: read[i] == orders[i];
  }

  /** Orders come as one string or as a list of strings, and each must read as an order. */
  lemma OrdersAreStrings(j: Json, orders: seq<Order>)
    ensures ParseOrders(j) == Some(orders) <==>
            match j
            case JStr(s) => ReadAs([j], orders)
            case JArr(items) => ReadAs(items, orders)
            case _ => false
  {
    match j
    case JStr(_) => ItemsAreOrders([j], orders);
    case JArr(items) => ItemsAreOrders(items, orders);
    case _ =>
  }

  // ----- limits -----

  /** The server is sent a limit, or a number to skip, exactly when a whole number greater than
      zero that fits 64 bits is asked for. */
  lemma WholeNumbersCount(j: Option<Json>, n: nat)
    ensures RepositoryQuery.NonZero(UintOf(j)) == Some(n) <==>
            0 < n < 0x1_0000_0000_0000_0000 && j == Some(JNum(n as real))
  {
    if j.Some? && j.value.JNum? && j.value.n == n as real { assert j.value.n.Floor == n; }
  }

  // ----- fields -----

  function Trues(names: seq<string>): seq<Member> {
    seq(|names|, i requires 0 <= i < |names| => Member(Lex(names[i]), JBool(true)))
  }

  /** A list of names reads like the object with all of them true. */
  lemma {:induction false} NamesAreTrue(names: seq<string>)
    ensures FieldsOfNames(Texts(names).items) == Some(FieldsOfMembers(Trues(names)))
    decreases |names|
  {
    if names != [] {
      var (front, last) := (names[..|names| - 1], names[|names| - 1]);
      NamesAreTrue(front);
      assert Texts(names).items[..|front|] == Texts(front).items && Trues(names)[..|front|] == Trues(front);
      assert Texts(names).items[|front|] == JStr(last) && Trues(names)[|front|] == Member(Lex(last), JBool(true));
      LexIsInjective(last);
    }
  }

  /** There is no other list that can be read. */
  lemma {:induction false} OnlyNamesAreRead(items: seq<Json>)
    ensures FieldsOfNames(items).Some? <==> forall j <- items :: j.JStr?
  {
    if items != [] {
      var (front, last) := (items[..|items| - 1], items[|items| - 1]);
      OnlyNamesAreRead(front);
      assert items == front + [last];
    }
  }

  predicate LastBool(ms: seq<Member>, i: int, name: string, b: bool) {
    && 0 <= i < |ms| && Text(ms[i].key) == name && ms[i].value == JBool(b)
    && forall l | i < l < |ms| :: Text(ms[l].key) == name ==> !ms[l].value.JBool?
  }

  /** In an object the last true or false of a name counts, and nothing else. */
  lemma {:induction false} LastBoolCounts(ms: seq<Member>, name: string, b: bool)
    ensures name in FieldsOfMembers(ms) && FieldsOfMembers(ms)[name] == b <==> exists i :: LastBool(ms, i, name, b)
  {
    if ms != [] {
      var end := |ms| - 1;
      LastBoolCounts(ms[..end], name, b);
      if Text(ms[end].key) == name && ms[end].value.JBool? {
        assert ms[end].value.b == b ==> LastBool(ms, end, name, b);
      } else {
        forall i ensures LastBool(ms, i, name, b) <==> LastBool(ms[..end], i, name, b) {
          assert forall l | 0 <= l < end :: ms[..end][l] == ms[l];
        }
      }
    }
  }

  // ----- included relations -----

  function Named(names: seq<string>): seq<Json> {
    seq(|names|, i requires 0 <= i < |names| => JObj([Member(Lex("relation"), JStr(names[i]))]))
  }

  /** A string is short for the list of its parts between commas, each an object that has it
      for its relation. */
  lemma CommasAreLists(names: seq<string>)
    requires names != [] && forall name <- names :: ',' !in name
    ensures ParseInclude(JStr(Join(names, ','))) == ParseInclude(JArr(Named(names)))
  {
    assert forall i | 0 <= i < |names| :: names[i] in names;
    SplitOfJoin(names, ',');
    NamedAreRelations(names);
  }

  lemma {:induction false} NamedAreRelations(names: seq<string>)
    ensures ParseIncludes(Named(names)) == Some(Relations(names))
    decreases |names|
  {
    if names != [] {
      var (front, last) := (names[..|names| - 1], names[|names| - 1]);
      NamedAreRelations(front);
      assert Named(names)[..|front|] == Named(front) && Relations(names) == Relations(front) + [Include(last, None)];
      KeysOfIncludes();
      OneGets(RELATION_KEY, JStr(last), SCOPE_KEY);
      ObjectsInclude([Member(RELATION_KEY, JStr(last))], [Include(last, None)]);
      assert ParseInclude(Named(names)[|front|]) == Some([Include(last, None)]);
    } else {
      assert Relations(names) == [];
    }
  }

  lemma OneGets(k: Key, v: Json, other: Key)
    requires k != other
    ensures Get([Member(k, v)], k) == Some(v) && Get([Member(k, v)], other) == None
  {
    GetByKey([Member(k, v)], k);
    GetByKey([Member(k, v)], other);
    FirstIsFound([Member(k, v)], k, 0);
  }

  /** An object includes one relation by its name, with the filter that its scope, if it has one,
      must read as. */
  lemma ObjectsInclude(ms: seq<Member>, includes: seq<Include>)
    ensures var (relation, scope) := (Get(ms, Lex("relation")), Get(ms, Lex("scope")));
            ParseInclude(JObj(ms)) == Some(includes) <==>
            && |includes| == 1 && relation == Some(JStr(includes[0].relation))
            && if scope.Some? then includes[0].scope.Some? && ParseFilter(scope.value) == includes[0].scope
               else includes[0].scope.None?
  {
    var (relation, scope) := (Get(ms, RELATION_KEY), Get(ms, SCOPE_KEY));
    KeysOfIncludes();
    assert Part(JObj(ms), RELATION_KEY) == relation && Part(JObj(ms), SCOPE_KEY) == scope;
    if relation.Some? && relation.value.JStr? && (scope.Some? ==> ParseFilter(scope.value).Some?) {
      var own := Include(relation.value.s, if scope.Some? then ParseFilter(scope.value) else None);
      assert ParseInclude(JObj(ms)) == Some([own]);
      if |includes| == 1 { assert includes == [includes[0]]; }
    } else {
      assert ParseInclude(JObj(ms)).None?;
    }
  }

  /** No operator word begins like this, */
  lemma OtherLetters(s: string)
    requires s != "" && s[0] in {'f', 'r', 's', 'w'}
    ensures Lex(s) == Path(s)
  {}

  /** or is as long as this. */
  lemma OtherLengths(s: string)
    requires ((|s| == 5 && s[0] != 'n') || (|s| == 7 && s[0] != 'o')) && s[0] != '$'
    ensures Lex(s) == Path(s)
  {}

  lemma KeysOfFilters()
    ensures Lex("where") == WHERE_KEY && Lex("order") == ORDER_KEY && Lex("fields") == FIELDS_KEY
    ensures Lex("limit") == LIMIT_KEY && Lex("skip") == SKIP_KEY && Lex("include") == INCLUDE_KEY
  {
    OtherLetters("where");
    OtherLengths("order");
    OtherLetters("fields");
    OtherLengths("limit");
    OtherLetters("skip");
    OtherLengths("include");
  }

  lemma KeysOfIncludes()
    ensures Lex("relation") == RELATION_KEY && Lex("scope") == SCOPE_KEY
  {
    OtherLetters("relation");
    OtherLetters("scope");
  }

  /** A list includes what its items do one after the other, and fails if one of them does; what
      is no string, list or object includes nothing. */
  lemma {:induction false} ListsInclude(front: seq<Json>, last: Json)
    ensures var (a, b) := (ParseInclude(JArr(front)), ParseInclude(last));
            ParseInclude(JArr(front + [last])) == if a.Some? && b.Some? then Some(a.value + b.value) else None
    ensures ParseInclude(JArr([])) == Some([])
    ensures !last.JStr? && !last.JArr? && !last.JObj? ==> ParseInclude(last) == Some([])
  {
    assert (front + [last])[..|front|] == front;
  }

  // ----- filters -----

  /** The members of a filter are read each by itself, and a bad one fails the whole. */
  lemma FilterIsItsMembers(ms: seq<Member>, f: Filter)
    ensures var (where, order, fields) := (Get(ms, Lex("where")), Get(ms, Lex("order")), Get(ms, Lex("fields")));
            var included := Get(ms, Lex("include"));
            ParseFilter(JObj(ms)) == Some(f) <==>
            && (if where.Some? then ParseWhere(where.value) == Some(f.where) else f.where == EMPTY)
            && (if order.Some? then ParseOrders(order.value) == Some(f.order) else f.order == [])
            && (match fields
                case None => f.fields == map[]
                case Some(JArr(items)) => FieldsOfNames(items) == Some(f.fields)
                case Some(JObj(ms)) => FieldsOfMembers(ms) == f.fields
                case _ => false)
            && (if included.Some? then ParseInclude(included.value) == Some(f.includes) else f.includes == [])
            && UintOf(Get(ms, Lex("limit"))) == f.limit && UintOf(Get(ms, Lex("skip"))) == f.skip
  {
    KeysOfFilters();
    var (j, included) := (JObj(ms), Get(ms, INCLUDE_KEY));
    assert Part(j, INCLUDE_KEY) == included;
    var includes := if included.Some? then ParseInclude(included.value) else Some([]);
    AssembledIs(f, ParseWhereMember(Part(j, WHERE_KEY)), ParseOrderMember(Part(j, ORDER_KEY)),
                ParseFields(Part(j, FIELDS_KEY)), UintOf(Part(j, LIMIT_KEY)), UintOf(Part(j, SKIP_KEY)), includes);
  }

  lemma AssembledIs(f: Filter, where: Option<Where>, order: Option<seq<Order>>, fields: Option<map<string, bool>>,
          limit: nat, skip: nat, includes: Option<seq<Include>>)
    ensures Assemble(where, order, fields, limit, skip, includes) == Some(f) <==>
            && where == Some(f.where) && order == Some(f.order) && fields == Some(f.fields)
            && limit == f.limit && skip == f.skip && includes == Some(f.includes)
  {}
}
