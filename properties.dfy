/** What the aggregation promises about its result, stated over the four
    tables: the filters hold on every row, totals are the sums of the joined
    quantities, one row per group, every qualifying group is present, rows
    are ordered, and rows without a join partner change nothing. */
module Properties {
  import opened Tables
  import opened Ordering
  import opened Query

  /** Every row's age lies in [18, 35], both ends included. */
  lemma RowsAgeInRange(st: Store)
    ensures forall r :: r in Aggregate(st) ==> 18 <= r.age <= 35
  {
    AggregateCharacterized(st);
  }

  /** Every row's item name is "x", "y" or "z"; any other name never appears. */
  lemma RowsItemAllowed(st: Store)
    ensures forall r :: r in Aggregate(st) ==> r.itemName == "x" || r.itemName == "y" || r.itemName == "z"
  {
    AggregateCharacterized(st);
  }

  /** Every row's total is strictly positive. */
  lemma RowsTotalPositive(st: Store)
    ensures forall r :: r in Aggregate(st) ==> r.total > 0
  {
    AggregateCharacterized(st);
  }

  /** Every row's total is the quantity summed over the orders of that
      customer's sales whose item carries that name, read off the tables. */
  lemma RowTotalIsTablesSum(st: Store)
    ensures forall r :: r in Aggregate(st) ==> r.total == TablesSum(st, RowKey(r))
  {
    AggregateCharacterized(st);
    forall r | r in Aggregate(st) ensures r.total == TablesSum(st, RowKey(r)) {
      TotalJoin(st.customers, st.sales, st.orders, st.items, RowKey(r));
    }
  }

  /** No two rows share the key (customer_id, age, item_name). */
  lemma OneRowPerGroup(st: Store)
    ensures forall i, j :: 0 <= i < j < |Aggregate(st)| ==> RowKey(Aggregate(st)[i]) != RowKey(Aggregate(st)[j])
  {
    AggregateCharacterized(st);
    var r := Aggregate(st);
    forall i, j | 0 <= i < j < |r| ensures RowKey(r[i]) != RowKey(r[j]) {
      KeyLessIrreflexive(RowKey(r[i]));
    }
  }

  /** Every group that passes the age and item filters and has a positive
      sum is in the result, with that sum. */
  lemma Complete(st: Store, k: Key)
    requires 18 <= k.age <= 35 && (k.itemName == "x" || k.itemName == "y" || k.itemName == "z")
    requires TablesSum(st, k) > 0
    ensures Row(k.customerId, k.age, k.itemName, TablesSum(st, k)) in Aggregate(st)
  {
    AggregateCharacterized(st);
    TotalJoin(st.customers, st.sales, st.orders, st.items, k);
    assert InResult(st, Row(k.customerId, k.age, k.itemName, TablesSum(st, k)));
  }

  /** Rows ascend by customer_id, and by item_name among equal customer_ids. */
  lemma SortedByCustomerThenItem(st: Store)
    ensures forall i, j :: 0 <= i < j < |Aggregate(st)| ==>
      var a, b := Aggregate(st)[i], Aggregate(st)[j];
      a.customerId <= b.customerId && (a.customerId == b.customerId ==> !StrLess(b.itemName, a.itemName))
  {
    AggregateCharacterized(st);
    var r := Aggregate(st);
    forall i, j | 0 <= i < j < |r|
      ensures r[i].customerId <= r[j].customerId && (r[i].customerId == r[j].customerId ==> !StrLess(r[j].itemName, r[i].itemName))
    {
      if r[i].customerId == r[j].customerId && StrLess(r[j].itemName, r[i].itemName) {
        StrLessIrreflexive(r[i].itemName);
        if StrLess(r[i].itemName, r[j].itemName) {
          StrLessTransitive(r[i].itemName, r[j].itemName, r[i].itemName);
        }
      }
    }
  }

  /** An order that meets no Sales row, or no Items row, adds nothing to the result. */
  lemma UnmatchedOrderIgnored(st: Store, n: nat)
    requires n < |st.orders|
    requires (forall s :: s in st.sales ==> s.salesId != st.orders[n].salesId)
          || (forall i :: i in st.items ==> i.itemId != st.orders[n].itemId)
    ensures Aggregate(st.(orders := st.orders[..n] + st.orders[n + 1..])) == Aggregate(st)
  {
    var os := st.orders;
    var os' := os[..n] + os[n + 1..];
    var o := os[n];
    assert os == os[..n] + ([o] + os[n + 1..]);
    forall c, s | c in st.customers && s in st.sales
      ensures JoinOrders(c, s, os, st.items) == JoinOrders(c, s, os', st.items)
    {
      JoinOrdersAppend(c, s, os[..n], [o] + os[n + 1..], st.items);
      JoinOrdersAppend(c, s, [o], os[n + 1..], st.items);
      JoinOrdersAppend(c, s, os[..n], os[n + 1..], st.items);
      if s.salesId == o.salesId {
        NoItemNoLine(c, s, o, st.items);
      }
    }
    JoinSameOrders(st.customers, st.sales, os, os', st.items);
  }

  lemma {:induction false} NoItemNoLine(c: Customer, s: Sale, o: Order, its: seq<Item>)
    requires forall i :: i in its ==> i.itemId != o.itemId
    ensures JoinItems(c, s, o, its) == []
  {
    if |its| != 0 {
      assert its[0] in its;
      NoItemNoLine(c, s, o, its[1..]);
    }
  }

  /** A sale that meets no Customer row adds nothing to the result. */
  lemma UnmatchedSaleIgnored(st: Store, n: nat)
    requires n < |st.sales|
    requires forall c :: c in st.customers ==> c.customerId != st.sales[n].customerId
    ensures Aggregate(st.(sales := st.sales[..n] + st.sales[n + 1..])) == Aggregate(st)
  {
    var ss := st.sales;
    var ss' := ss[..n] + ss[n + 1..];
    var s := ss[n];
    assert ss == ss[..n] + ([s] + ss[n + 1..]);
    forall c | c in st.customers
      ensures JoinSales(c, ss, st.orders, st.items) == JoinSales(c, ss', st.orders, st.items)
    {
      JoinSalesAppend(c, ss[..n], [s] + ss[n + 1..], st.orders, st.items);
      JoinSalesAppend(c, [s], ss[n + 1..], st.orders, st.items);
      JoinSalesAppend(c, ss[..n], ss[n + 1..], st.orders, st.items);
    }
    JoinSameSales(st.customers, ss, ss', st.orders, st.items);
  }

  /** Customer 1 aged 25 buys item "x" twice in sale 10, 3 and 2 units. */
  const ExampleStore := Store([Customer(1, 25)], [Sale(10, 1)], [Order(10, 100, 3), Order(10, 100, 2)], [Item(100, "x")])

  lemma ExampleSums(k: Key)
    ensures TablesSum(ExampleStore, k) == if k == Key(1, 25, "x") then 5 else 0
  {
    var st := ExampleStore;
    var n := if k.itemName == "x" then 1 else 0;
    assert ItemCount(100, st.items, k.itemName) == n;
    assert OrdersSum(10, st.orders[1..], st.items, k.itemName) == 2 * n;
    assert OrdersSum(10, st.orders, st.items, k.itemName) == 5 * n;
    assert SalesSum(1, st.sales, st.orders, st.items, k.itemName) == 5 * n;
    assert TablesSum(st, k) == (if k.customerId == 1 && k.age == 25 then 5 * n else 0)
                               + CustomersSum(st.customers[1..], st.sales, st.orders, st.items, k);
  }

  lemma ExampleInResult(r: Row)
    ensures InResult(ExampleStore, r) <==> r == Row(1, 25, "x", 5)
  {
    var st := ExampleStore;
    TotalJoin(st.customers, st.sales, st.orders, st.items, RowKey(r));
    ExampleSums(RowKey(r));
  }

  lemma ExampleTotals()
    ensures Aggregate(ExampleStore) == [Row(1, 25, "x", 5)]
  {
    var want := [Row(1, 25, "x", 5)];
    forall r ensures r in want <==> InResult(ExampleStore, r) {
      ExampleInResult(r);
    }
    AnswerDetermined(ExampleStore, want);
  }
}
