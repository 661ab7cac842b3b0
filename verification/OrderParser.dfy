/** Order strings: a field and a direction with one space between them. */
module OrderParser {
  import opened Wrappers
  import opened Strings
  import opened Lbq
  import opened QueryParser

  /** Upper case as far as it can give one of the direction words: of the letters
      outside ASCII only the long s has an upper-case form inside it that they use. */
  function UpperChar(c: char): char {
    if 'a' <= c <= 'z' then (c as int - 32) as char
    else if c == '\U{017F}' then 'S'
    else c
  }

  function Upper(s: string): string { seq(|s|, i requires 0 <= i < |s| => UpperChar(s[i])) }

  const ASC := "ASC"
  const DESC := "DESC"

  predicate IsDirection(s: string) { s == ASC || s == DESC }

  function OrderOf(s: string): Option<Order> {
    var parts := Split(TrimSpace(s), ' ');
    if |parts| != 2 then None
    else if !IsDirection(Upper(parts[1])) then None
    else Some(Order(parts[0], Upper(parts[1])))
  }

  function OrderItem(j: Json): Option<Order> { if j.JStr? then OrderOf(j.s) else None }

  /** All items must be readable strings. */
  function OrderItems(items: seq<Json>): Option<seq<Order>>
    decreases items
  {
    if items == [] then Some([])
    else
      var front := OrderItems(items[..|items| - 1]);
      var last := OrderItem(items[|items| - 1]);
      if front.Some? && last.Some? then Some(front.value + [last.value]) else None
  }

  function ParseOrders(j: Json): Option<seq<Order>> {
    match j
    case JStr(_) => OrderItems([j])
    case JArr(items) => OrderItems(items)
    case _ => None
  }

  method ParseOrderStr(s: string) returns (order: Option<Order>)
    ensures order == OrderOf(s)
  {
    var sort := Split(TrimSpace(s), ' ');
    if |sort| != 2 {
      return None;
    }
    var field, direction := sort[0], Upper(sort[1]);
    if !IsDirection(direction) {
      return None;
    }
    order := Some(Order(field, direction));
  }

  method ParseOrderValue(j: Json) returns (orders: Option<seq<Order>>)
    ensures orders == ParseOrders(j)
  {
    match j
    case JStr(s) =>
      var order := ParseOrderStr(s);
      OneItem(j);
      orders := if order.Some? then Some([order.value]) else None;
    case JArr(items) =>
      var result: seq<Order> := [];
      for i := 0 to |items|
        invariant OrderItems(items[..i]) == Some(result)
      {
        assert items[..i + 1][..i] == items[..i];
        if !items[i].JStr? {
          ItemsFail(items, i);
          return None;
        }
        var order := ParseOrderStr(items[i].s);
        if order.None? {
          ItemsFail(items, i);
          return None;
        }
        result := result + [order.value];
      }
      assert items[..|items|] == items;
      orders := Some(result);
    case _ => orders := None;
  }

  lemma OneItem(j: Json)
    ensures OrderItems([j]) == if OrderItem(j).Some? then Some([OrderItem(j).value]) else None
  {
    assert [j][..0] == [];
    if OrderItem(j).Some? { assert [] + [OrderItem(j).value] == [OrderItem(j).value]; }
  }

  lemma {:induction false} ItemsFail(items: seq<Json>, i: nat)
    requires i < |items| && OrderItem(items[i]).None?
    ensures OrderItems(items).None?
    decreases items
  {
    if i < |items| - 1 { ItemsFail(items[..|items| - 1], i); }
  }

  // ----- what is read -----

  /** A field and a word for the direction, one space between them. */
  ghost predicate Spells(s: string, o: Order, word: string) {
    s == o.field + " " + word && ' ' !in o.field && ' ' !in word && Upper(word) == o.direction
      && IsDirection(o.direction)
  }

  /** The only way to get two parts. */
  lemma TwoParts(s: string, first: string, second: string)
    ensures Split(s, ' ') == [first, second] <==> s == first + " " + second && ' ' !in first && ' ' !in second
  {
    var (parts, split) := ([first, second], Split(s, ' '));
    assert parts[..1] == [first];
    assert Join(parts, ' ') == first + " " + second;
    JoinOfSplit(s, ' ');
    if split == parts { assert ' ' !in split[0] && ' ' !in split[1]; }
    if ' ' !in first && ' ' !in second { SplitOfJoin(parts, ' '); }
  }

  lemma SpelledIsRead(s: string, o: Order, word: string)
    requires Spells(TrimSpace(s), o, word)
    ensures OrderOf(s) == Some(o)
  {
    TwoParts(TrimSpace(s), o.field, word);
  }

  ghost predicate Spelled(s: string, o: Order) { exists word :: Spells(s, o, word) }

  /** A string reads as an order exactly when, trimmed, it spells that order. */
  lemma OrderIsSpelled(s: string, o: Order)
    ensures OrderOf(s) == Some(o) <==> Spelled(TrimSpace(s), o)
  {
    var t := TrimSpace(s);
    var parts := Split(t, ' ');
    if OrderOf(s) == Some(o) {
      assert parts == [parts[0], parts[1]];
      TwoParts(t, parts[0], parts[1]);
      assert Spells(t, o, parts[1]);
    }
    if Spelled(t, o) {
      var word :| Spells(t, o, word);
      SpelledIsRead(s, o, word);
    }
  }

  lemma DirectionsAreUpper(direction: string)
    requires IsDirection(direction)
    ensures Upper(direction) == direction && ' ' !in direction
  {
    assert Upper(ASC) == ASC && Upper(DESC) == DESC;
  }

  function Spelling(o: Order): string { o.field + " " + o.direction }

  /** An order that was read has a field and reads back from its own spelling. */
  lemma OrderReadsBack(s: string, o: Order)
    requires OrderOf(s) == Some(o)
    ensures o.field != ""
    ensures OrderOf(Spelling(o)) == Some(o)
  {
    OrderIsSpelled(s, o);
    var word :| Spells(TrimSpace(s), o, word);
    var t := TrimSpace(s);
    assert t[0] == if o.field == "" then ' ' else o.field[0];
    var own := Spelling(o);
    assert own[|own| - 1] == o.direction[|o.direction| - 1] == 'C';
    assert Tight(own);
    DirectionsAreUpper(o.direction);
    SpelledIsRead(own, o, o.direction);
  }

  function Spellings(orders: seq<Order>): seq<Json> {
    seq(|orders|, i requires 0 <= i < |orders| => JStr(Spelling(orders[i])))
  }

  lemma {:induction false} ItemsReadBack(items: seq<Json>)
    requires OrderItems(items).Some?
    ensures OrderItems(Spellings(OrderItems(items).value)) == OrderItems(items)
    decreases items
  {
    if items != [] {
      var (front, last) := (items[..|items| - 1], items[|items| - 1]);
      ItemsReadBack(front);
      OrderReadsBack(last.s, OrderItem(last).value);
      SpellingsGrow(OrderItems(front).value, OrderItem(last).value);
    }
  }

  lemma SpellingsGrow(orders: seq<Order>, o: Order)
    requires OrderOf(Spelling(o)) == Some(o)
    requires OrderItems(Spellings(orders)) == Some(orders)
    ensures OrderItems(Spellings(orders + [o])) == Some(orders + [o])
  {
    var items := Spellings(orders + [o]);
    assert items[..|orders|] == Spellings(orders) && items[|orders|] == JStr(Spelling(o));
  }

  /** The orders read from a value read back from the list of their spellings. */
  lemma OrdersReadBack(j: Json)
    requires ParseOrders(j).Some?
    ensures ParseOrders(JArr(Spellings(ParseOrders(j).value))) == ParseOrders(j)
  {
    ItemsReadBack(if j.JStr? then [j] else j.items);
  }
}
