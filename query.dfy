/** The aggregation both solutions compute: the inner joins
    Customer ⋈ Sales ⋈ Orders ⋈ Items, the WHERE filter on age and item
    name, GROUP BY (customer_id, age, item_name) with the sum of quantity,
    HAVING the sum positive, and ORDER BY customer_id, item_name. */
module Query {
  import opened Tables
  import opened Ordering

  // ---------------------------------------------------------------- join

  /** The three join conditions of the query. */
  predicate Joins(c: Customer, s: Sale, o: Order, i: Item) {
    c.customerId == s.customerId && s.salesId == o.salesId && o.itemId == i.itemId
  }

  function MakeLine(c: Customer, s: Sale, o: Order, i: Item): Line {
    Line(c.customerId, c.age, s.salesId, o.itemId, o.quantity, i.itemName)
  }

  /** Every Items row matching order o, for the fixed customer c and sale s. */
  function JoinItems(c: Customer, s: Sale, o: Order, its: seq<Item>): seq<Line> {
    if |its| == 0 then []
    else (if o.itemId == its[0].itemId then [MakeLine(c, s, o, its[0])] else []) + JoinItems(c, s, o, its[1..])
  }

  /** Every Orders row of sale s, each joined with its items. */
  function JoinOrders(c: Customer, s: Sale, os: seq<Order>, its: seq<Item>): seq<Line> {
    if |os| == 0 then []
    else (if s.salesId == os[0].salesId then JoinItems(c, s, os[0], its) else []) + JoinOrders(c, s, os[1..], its)
  }

  /** Every Sales row of customer c, each joined with its orders. */
  function JoinSales(c: Customer, ss: seq<Sale>, os: seq<Order>, its: seq<Item>): seq<Line> {
    if |ss| == 0 then []
    else (if c.customerId == ss[0].customerId then JoinOrders(c, ss[0], os, its) else []) + JoinSales(c, ss[1..], os, its)
  }

  /** Customer ⋈ Sales ⋈ Orders ⋈ Items, in nested-loop order. */
  function Join(cs: seq<Customer>, ss: seq<Sale>, os: seq<Order>, its: seq<Item>): seq<Line> {
    if |cs| == 0 then []
    else JoinSales(cs[0], ss, os, its) + Join(cs[1..], ss, os, its)
  }

  function JoinStore(st: Store): seq<Line> {
    Join(st.customers, st.sales, st.orders, st.items)
  }

  lemma {:induction false} JoinItemsMembers(c: Customer, s: Sale, o: Order, its: seq<Item>, l: Line)
    ensures l in JoinItems(c, s, o, its) <==> exists i :: i in its && o.itemId == i.itemId && l == MakeLine(c, s, o, i)
  {
    if |its| != 0 {
      JoinItemsMembers(c, s, o, its[1..], l);
      assert its == [its[0]] + its[1..];
    }
  }

  lemma {:induction false} JoinOrdersMembers(c: Customer, s: Sale, os: seq<Order>, its: seq<Item>, l: Line)
    ensures l in JoinOrders(c, s, os, its) <==>
      exists o, i :: o in os && i in its && s.salesId == o.salesId && o.itemId == i.itemId && l == MakeLine(c, s, o, i)
  {
    if |os| != 0 {
      JoinOrdersMembers(c, s, os[1..], its, l);
      JoinItemsMembers(c, s, os[0], its, l);
      assert os == [os[0]] + os[1..];
    }
  }

  lemma {:induction false} JoinSalesMembers(c: Customer, ss: seq<Sale>, os: seq<Order>, its: seq<Item>, l: Line)
    ensures l in JoinSales(c, ss, os, its) <==>
      exists s, o, i :: s in ss && o in os && i in its && Joins(c, s, o, i) && l == MakeLine(c, s, o, i)
  {
    if |ss| != 0 {
      JoinSalesMembers(c, ss[1..], os, its, l);
      JoinOrdersMembers(c, ss[0], os, its, l);
      assert ss == [ss[0]] + ss[1..];
    }
  }

  /** Inner-join semantics: a joined line comes from exactly one combination
      of rows, one per table, that meet all three join conditions. */
  lemma {:induction false} JoinMembers(cs: seq<Customer>, ss: seq<Sale>, os: seq<Order>, its: seq<Item>, l: Line)
    ensures l in Join(cs, ss, os, its) <==>
      exists c, s, o, i :: c in cs && s in ss && o in os && i in its && Joins(c, s, o, i) && l == MakeLine(c, s, o, i)
  {
    if |cs| != 0 {
      var c0 := cs[0];
      JoinMembers(cs[1..], ss, os, its, l);
      JoinSalesMembers(c0, ss, os, its, l);
      if l in JoinSales(c0, ss, os, its) {
        var s, o, i :| s in ss && o in os && i in its && Joins(c0, s, o, i) && l == MakeLine(c0, s, o, i);
        assert c0 in cs;
      } else if l in Join(cs[1..], ss, os, its) {
        var c, s, o, i :| c in cs[1..] && s in ss && o in os && i in its && Joins(c, s, o, i) && l == MakeLine(c, s, o, i);
        assert c in cs;
      } else {
        forall c, s, o, i | c in cs && s in ss && o in os && i in its && Joins(c, s, o, i)
          ensures l != MakeLine(c, s, o, i)
        {
          if c != c0 {
            assert c in cs[1..];
          }
        }
      }
    }
  }

  lemma {:induction false} JoinOrdersAppend(c: Customer, s: Sale, a: seq<Order>, b: seq<Order>, its: seq<Item>)
    ensures JoinOrders(c, s, a + b, its) == JoinOrders(c, s, a, its) + JoinOrders(c, s, b, its)
  {
    if |a| == 0 {
      assert a + b == b;
    } else {
      assert (a + b)[0] == a[0] && (a + b)[1..] == a[1..] + b;
      JoinOrdersAppend(c, s, a[1..], b, its);
    }
  }

  lemma {:induction false} JoinSalesAppend(c: Customer, a: seq<Sale>, b: seq<Sale>, os: seq<Order>, its: seq<Item>)
    ensures JoinSales(c, a + b, os, its) == JoinSales(c, a, os, its) + JoinSales(c, b, os, its)
  {
    if |a| == 0 {
      assert a + b == b;
    } else {
      assert (a + b)[0] == a[0] && (a + b)[1..] == a[1..] + b;
      JoinSalesAppend(c, a[1..], b, os, its);
    }
  }

  /** Two Orders tables that join alike with every (customer, sale) pair give the same join. */
  lemma {:induction false} JoinSameOrders(cs: seq<Customer>, ss: seq<Sale>, os: seq<Order>, os': seq<Order>, its: seq<Item>)
    requires forall c, s :: c in cs && s in ss ==> JoinOrders(c, s, os, its) == JoinOrders(c, s, os', its)
    ensures Join(cs, ss, os, its) == Join(cs, ss, os', its)
  {
    if |cs| != 0 {
      JoinSameOrders(cs[1..], ss, os, os', its);
      JoinSalesSameOrders(cs[0], ss, os, os', its);
    }
  }

  lemma {:induction false} JoinSalesSameOrders(c: Customer, ss: seq<Sale>, os: seq<Order>, os': seq<Order>, its: seq<Item>)
    requires forall s :: s in ss ==> JoinOrders(c, s, os, its) == JoinOrders(c, s, os', its)
    ensures JoinSales(c, ss, os, its) == JoinSales(c, ss, os', its)
  {
    if |ss| != 0 {
      JoinSalesSameOrders(c, ss[1..], os, os', its);
    }
  }

  /** Two Sales tables that join alike with every customer give the same join. */
  lemma {:induction false} JoinSameSales(cs: seq<Customer>, ss: seq<Sale>, ss': seq<Sale>, os: seq<Order>, its: seq<Item>)
    requires forall c :: c in cs ==> JoinSales(c, ss, os, its) == JoinSales(c, ss', os, its)
    ensures Join(cs, ss, os, its) == Join(cs, ss', os, its)
  {
    if |cs| != 0 {
      JoinSameSales(cs[1..], ss, ss', os, its);
    }
  }

  // -------------------------------------------------------------- filter

  /** The WHERE clause, on a grouping key: age BETWEEN 18 AND 35 and item_name IN ('x', 'y', 'z'). */
  predicate Qualifies(k: Key) {
    18 <= k.age <= 35 && (k.itemName == "x" || k.itemName == "y" || k.itemName == "z")
  }

  /** The joined lines that pass the WHERE clause, in their order. */
  function Where(ls: seq<Line>): (r: seq<Line>)
    ensures forall l :: l in r <==> l in ls && Qualifies(KeyOf(l))
  {
    if |ls| == 0 then []
    else
      assert ls == [ls[0]] + ls[1..];
      (if Qualifies(KeyOf(ls[0])) then [ls[0]] else []) + Where(ls[1..])
  }

  // ----------------------------------------------------------- group/sum

  /** SUM(quantity) over the lines of group k; a group with no line sums to 0. */
  function Total(ls: seq<Line>, k: Key): int {
    if |ls| == 0 then 0
    else (if KeyOf(ls[0]) == k then ls[0].quantity else 0) + Total(ls[1..], k)
  }

  lemma {:induction false} TotalAppend(a: seq<Line>, b: seq<Line>, k: Key)
    ensures Total(a + b, k) == Total(a, k) + Total(b, k)
  {
    if |a| != 0 {
      assert (a + b)[0] == a[0] && (a + b)[1..] == a[1..] + b;
      TotalAppend(a[1..], b, k);
    } else {
      assert a + b == b;
    }
  }

  /** A group with a nonzero sum has at least one line. */
  lemma {:induction false} TotalNonzeroHasLine(ls: seq<Line>, k: Key)
    requires Total(ls, k) != 0
    ensures exists l :: l in ls && KeyOf(l) == k
  {
    if KeyOf(ls[0]) != k {
      TotalNonzeroHasLine(ls[1..], k);
    }
  }

  /** The WHERE clause removes every line of a group or none: the filtered
      columns are part of the key. */
  lemma {:induction false} TotalWhere(ls: seq<Line>, k: Key)
    ensures Total(Where(ls), k) == if Qualifies(k) then Total(ls, k) else 0
  {
    if |ls| != 0 {
      TotalWhere(ls[1..], k);
      var head := if Qualifies(KeyOf(ls[0])) then [ls[0]] else [];
      TotalAppend(head, Where(ls[1..]), k);
    }
  }

  /** The distinct keys of ls in order of first appearance. */
  function Keys(ls: seq<Line>): seq<Key> {
    if |ls| == 0 then []
    else
      var ks := Keys(ls[..|ls| - 1]);
      var k := KeyOf(ls[|ls| - 1]);
      if k in ks then ks else ks + [k]
  }

  /** The keys are exactly those of the lines. */
  lemma {:induction false} KeysMembers(ls: seq<Line>)
    ensures forall k :: k in Keys(ls) <==> exists l :: l in ls && KeyOf(l) == k
  {
    if |ls| != 0 {
      var init := ls[..|ls| - 1];
      assert ls == init + [ls[|ls| - 1]];
      KeysMembers(init);
    }
  }

  /** No key is listed twice. */
  lemma {:induction false} KeysNoDuplicates(ls: seq<Line>)
    ensures forall i, j :: 0 <= i < j < |Keys(ls)| ==> Keys(ls)[i] != Keys(ls)[j]
  {
    if |ls| != 0 {
      KeysNoDuplicates(ls[..|ls| - 1]);
    }
  }

  function GroupRow(k: Key, total: int): Row {
    Row(k.customerId, k.age, k.itemName, total)
  }

  /** One row per key of ks, carrying the sum of that group in ls. */
  function GroupRows(ks: seq<Key>, ls: seq<Line>): (g: seq<Row>)
    ensures |g| == |ks|
    ensures forall i :: 0 <= i < |ks| ==> g[i] == GroupRow(ks[i], Total(ls, ks[i]))
  {
    if |ks| == 0 then []
    else GroupRows(ks[..|ks| - 1], ls) + [GroupRow(ks[|ks| - 1], Total(ls, ks[|ks| - 1]))]
  }

  /** GROUP BY customer_id, age, item_name with SUM(quantity). */
  function Groups(ls: seq<Line>): (g: seq<Row>)
    ensures KeysDistinct(g)
    ensures forall r :: r in g <==> (exists l :: l in ls && KeyOf(l) == RowKey(r)) && r.total == Total(ls, RowKey(r))
  {
    var ks := Keys(ls);
    KeysMembers(ls);
    KeysNoDuplicates(ls);
    var g := GroupRows(ks, ls);
    assert forall r :: r in g ==> RowKey(r) in ks && r.total == Total(ls, RowKey(r));
    assert forall r :: RowKey(r) in ks && r.total == Total(ls, RowKey(r)) ==> r in g by {
      forall r | RowKey(r) in ks && r.total == Total(ls, RowKey(r)) ensures r in g {
        var i :| 0 <= i < |ks| && ks[i] == RowKey(r);
        assert g[i] == r;
      }
    }
    g
  }

  /** HAVING SUM(quantity) > 0. */
  function Having(g: seq<Row>): (h: seq<Row>)
    ensures forall r :: r in h <==> r in g && r.total > 0
  {
    if |g| == 0 then []
    else
      assert g == [g[0]] + g[1..];
      (if g[0].total > 0 then [g[0]] else []) + Having(g[1..])
  }

  lemma {:induction false} HavingKeysDistinct(g: seq<Row>)
    requires KeysDistinct(g)
    ensures KeysDistinct(Having(g))
  {
    if |g| != 0 {
      HavingKeysDistinct(g[1..]);
      var rest := Having(g[1..]);
      forall r | r in rest ensures RowKey(r) != RowKey(g[0]) {
        var m :| 0 <= m < |g[1..]| && g[1..][m] == r;
        assert g[m + 1] == r;
      }
    }
  }

  // ------------------------------------------- sums read off the tables

  /** How many Items rows carry item id itemId and name name. */
  function ItemCount(itemId: int, its: seq<Item>, name: string): nat {
    if |its| == 0 then 0
    else (if its[0].itemId == itemId && its[0].itemName == name then 1 else 0) + ItemCount(itemId, its[1..], name)
  }

  /** Over the Orders rows of sale salesId: quantity times the number of Items rows naming it name. */
  function OrdersSum(salesId: int, os: seq<Order>, its: seq<Item>, name: string): int {
    if |os| == 0 then 0
    else
      (if os[0].salesId == salesId then os[0].quantity * ItemCount(os[0].itemId, its, name) else 0)
      + OrdersSum(salesId, os[1..], its, name)
  }

  /** Over the Sales rows of customer customerId: the OrdersSum of each sale. */
  function SalesSum(customerId: int, ss: seq<Sale>, os: seq<Order>, its: seq<Item>, name: string): int {
    if |ss| == 0 then 0
    else
      (if ss[0].customerId == customerId then OrdersSum(ss[0].salesId, os, its, name) else 0)
      + SalesSum(customerId, ss[1..], os, its, name)
  }

  /** Over the Customer rows with k's id and age: the SalesSum of each for k's item name. */
  function CustomersSum(cs: seq<Customer>, ss: seq<Sale>, os: seq<Order>, its: seq<Item>, k: Key): int {
    if |cs| == 0 then 0
    else
      (if cs[0].customerId == k.customerId && cs[0].age == k.age
       then SalesSum(cs[0].customerId, ss, os, its, k.itemName) else 0)
      + CustomersSum(cs[1..], ss, os, its, k)
  }

  /** The quantity of item name k.itemName bought by customer k.customerId
      aged k.age, summed over the tables themselves. */
  function TablesSum(st: Store, k: Key): int {
    CustomersSum(st.customers, st.sales, st.orders, st.items, k)
  }

  lemma {:induction false} TotalJoinItems(c: Customer, s: Sale, o: Order, its: seq<Item>, k: Key)
    ensures Total(JoinItems(c, s, o, its), k) ==
      if c.customerId == k.customerId && c.age == k.age then o.quantity * ItemCount(o.itemId, its, k.itemName) else 0
  {
    if |its| != 0 {
      var head := if o.itemId == its[0].itemId then [MakeLine(c, s, o, its[0])] else [];
      TotalAppend(head, JoinItems(c, s, o, its[1..]), k);
      TotalJoinItems(c, s, o, its[1..], k);
      var one := if its[0].itemId == o.itemId && its[0].itemName == k.itemName then 1 else 0;
      assert o.quantity * (one + ItemCount(o.itemId, its[1..], k.itemName))
          == o.quantity * one + o.quantity * ItemCount(o.itemId, its[1..], k.itemName);
    }
  }

  lemma {:induction false} TotalJoinOrders(c: Customer, s: Sale, os: seq<Order>, its: seq<Item>, k: Key)
    ensures Total(JoinOrders(c, s, os, its), k) ==
      if c.customerId == k.customerId && c.age == k.age then OrdersSum(s.salesId, os, its, k.itemName) else 0
  {
    if |os| != 0 {
      var head := if s.salesId == os[0].salesId then JoinItems(c, s, os[0], its) else [];
      TotalAppend(head, JoinOrders(c, s, os[1..], its), k);
      TotalJoinOrders(c, s, os[1..], its, k);
      TotalJoinItems(c, s, os[0], its, k);
    }
  }

  lemma {:induction false} TotalJoinSales(c: Customer, ss: seq<Sale>, os: seq<Order>, its: seq<Item>, k: Key)
    ensures Total(JoinSales(c, ss, os, its), k) ==
      if c.customerId == k.customerId && c.age == k.age then SalesSum(c.customerId, ss, os, its, k.itemName) else 0
  {
    if |ss| != 0 {
      var head := if c.customerId == ss[0].customerId then JoinOrders(c, ss[0], os, its) else [];
      TotalAppend(head, JoinSales(c, ss[1..], os, its), k);
      TotalJoinSales(c, ss[1..], os, its, k);
      TotalJoinOrders(c, ss[0], os, its, k);
    }
  }

  /** A group's sum over the join equals the sum read off the four tables. */
  lemma {:induction false} TotalJoin(cs: seq<Customer>, ss: seq<Sale>, os: seq<Order>, its: seq<Item>, k: Key)
    ensures Total(Join(cs, ss, os, its), k) == CustomersSum(cs, ss, os, its, k)
  {
    if |cs| != 0 {
      TotalAppend(JoinSales(cs[0], ss, os, its), Join(cs[1..], ss, os, its), k);
      TotalJoin(cs[1..], ss, os, its, k);
      TotalJoinSales(cs[0], ss, os, its, k);
    }
  }

  // ----------------------------------------------------------- aggregate

  /** The result rows: join, filter, group and sum, having, order. */
  function Aggregate(st: Store): seq<Row> {
    SortRows(Having(Groups(Where(JoinStore(st)))))
  }

  /** SUM(quantity) of group k over the full join, before any filter. */
  function JoinTotal(st: Store, k: Key): int {
    Total(JoinStore(st), k)
  }

  /** What decides membership in the result: the key passes the WHERE
      clause, the total is the group's sum over the join, and it is positive. */
  predicate InResult(st: Store, r: Row) {
    Qualifies(RowKey(r)) && r.total == JoinTotal(st, RowKey(r)) && r.total > 0
  }

  /** The result is in strictly ascending key order and holds exactly the
      rows InResult admits. */
  lemma AggregateCharacterized(st: Store)
    ensures StrictlySorted(Aggregate(st))
    ensures forall r :: r in Aggregate(st) <==> InResult(st, r)
  {
    var j := JoinStore(st);
    var w := Where(j);
    var g := Groups(w);
    var h := Having(g);
    HavingKeysDistinct(g);
    SortRowsStrictlySorted(h);
    forall r ensures r in Aggregate(st) <==> InResult(st, r) {
      var k := RowKey(r);
      assert r in Aggregate(st) <==> r in multiset(SortRows(h));
      TotalWhere(j, k);
      if InResult(st, r) {
        TotalNonzeroHasLine(w, k);
      }
    }
  }

  /** Any strictly sorted sequence holding exactly the rows InResult admits is
      the result: the row set and the order determine it. */
  lemma AnswerDetermined(st: Store, r: seq<Row>)
    requires StrictlySorted(r)
    requires forall x :: x in r <==> InResult(st, x)
    ensures r == Aggregate(st)
  {
    AggregateCharacterized(st);
    StrictlySortedUnique(r, Aggregate(st));
  }
}
