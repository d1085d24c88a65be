/** The two solutions and the program's entry point. The SQL solution runs
    the query; the pandas solution loads the four tables and merges them
    step by step, then filters, groups, sums, casts, filters again and sorts.
    Either returns an empty DataFrame on an sqlite3.Error (a connect or
    fetch failure). The
    entry point writes the SQL result, and only that, to output.csv. */
module Solutions {
  import opened Tables
  import opened Ordering
  import opened Query

  /** A DataFrame as the solutions return it: column labels and rows. */
  datatype Frame = Frame(columns: seq<string>, rows: seq<Row>)

  /** DataFrame.empty: no column or no row. */
  predicate IsEmpty(f: Frame) {
    |f.columns| == 0 || |f.rows| == 0
  }

  /** pd.DataFrame(), returned after an sqlite3.Error. */
  const EmptyFrame: Frame := Frame([], [])

  /** The columns the query selects. */
  const SqlColumns: seq<string> := ["customer_id", "age", "item_name", "total_quantity"]

  /** The columns of the grouped DataFrame after reset_index. */
  const GroupedColumns: seq<string> := ["customer_id", "age", "item_name", "quantity"]

  /** The header written to output.csv, and the pandas solution's columns. */
  const OutputColumns: seq<string> := ["Customer", "Age", "Item", "Quantity"]

  // ------------------------------------------------------------ SQL

  /** sql_solution: the query's rows under the selected column names. */
  function SqlSolution(db: Result<Store>): Frame {
    match db
    case Err(_) => EmptyFrame
    case Ok(st) => Frame(SqlColumns, Aggregate(st))
  }

  // --------------------------------------------------------- pandas

  /** A row of merge(customers, sales, on='customer_id'). */
  datatype CustomerSale = CustomerSale(customerId: int, age: int, salesId: int)

  /** A row of that merged with orders on 'sales_id'. */
  datatype CustomerOrder = CustomerOrder(customerId: int, age: int, salesId: int, itemId: int, quantity: int)

  /** The sales rows matching one customer row. */
  function MergeSalesOf(c: Customer, ss: seq<Sale>): seq<CustomerSale> {
    if |ss| == 0 then []
    else
      (if c.customerId == ss[0].customerId then [CustomerSale(c.customerId, c.age, ss[0].salesId)] else [])
      + MergeSalesOf(c, ss[1..])
  }

  /** pd.merge(customers, sales, on='customer_id', how='inner'): left rows in order, each with its matches. */
  function MergeSales(cs: seq<Customer>, ss: seq<Sale>): seq<CustomerSale> {
    if |cs| == 0 then [] else MergeSalesOf(cs[0], ss) + MergeSales(cs[1..], ss)
  }

  function MergeOrdersOf(x: CustomerSale, os: seq<Order>): seq<CustomerOrder> {
    if |os| == 0 then []
    else
      (if x.salesId == os[0].salesId then [CustomerOrder(x.customerId, x.age, x.salesId, os[0].itemId, os[0].quantity)] else [])
      + MergeOrdersOf(x, os[1..])
  }

  /** pd.merge(df_merged, orders, on='sales_id', how='inner'). */
  function MergeOrders(xs: seq<CustomerSale>, os: seq<Order>): seq<CustomerOrder> {
    if |xs| == 0 then [] else MergeOrdersOf(xs[0], os) + MergeOrders(xs[1..], os)
  }

  function MergeItemsOf(y: CustomerOrder, its: seq<Item>): seq<Line> {
    if |its| == 0 then []
    else
      (if y.itemId == its[0].itemId then [Line(y.customerId, y.age, y.salesId, y.itemId, y.quantity, its[0].itemName)] else [])
      + MergeItemsOf(y, its[1..])
  }

  /** pd.merge(df_merged, items, on='item_id', how='inner'). */
  function MergeItems(ys: seq<CustomerOrder>, its: seq<Item>): seq<Line> {
    if |ys| == 0 then [] else MergeItemsOf(ys[0], its) + MergeItems(ys[1..], its)
  }

  /** The three merges, in the pipeline's order. */
  function Merged(st: Store): seq<Line> {
    MergeItems(MergeOrders(MergeSales(st.customers, st.sales), st.orders), st.items)
  }

  /** The pipeline's rename of the grouped columns. */
  function Rename(column: string): string {
    match column
    case "quantity" => "Quantity"
    case "customer_id" => "Customer"
    case "item_name" => "Item"
    case "age" => "Age"
    case _ => column
  }

  function RenameAll(columns: seq<string>): (r: seq<string>)
    ensures |r| == |columns|
  {
    if |columns| == 0 then [] else [Rename(columns[0])] + RenameAll(columns[1..])
  }

  /** pandas_solution: merge, mask on age and item name, group by the key
      and sum quantity, rename the columns, keep the positive sums, sort by
      Customer then Item. The astype(int) between rename and mask leaves an
      integer sum as it is, so it has no step here. */
  function PandasSolution(db: Result<Store>): Frame {
    match db
    case Err(_) => EmptyFrame
    case Ok(st) =>
      var grouped := Groups(Where(Merged(st)));
      Frame(RenameAll(GroupedColumns), SortRows(Having(grouped)))
  }

  lemma {:induction false} MergeOrdersAppend(a: seq<CustomerSale>, b: seq<CustomerSale>, os: seq<Order>)
    ensures MergeOrders(a + b, os) == MergeOrders(a, os) + MergeOrders(b, os)
  {
    if |a| == 0 {
      assert a + b == b;
    } else {
      assert (a + b)[0] == a[0] && (a + b)[1..] == a[1..] + b;
      MergeOrdersAppend(a[1..], b, os);
    }
  }

  lemma {:induction false} MergeItemsAppend(a: seq<CustomerOrder>, b: seq<CustomerOrder>, its: seq<Item>)
    ensures MergeItems(a + b, its) == MergeItems(a, its) + MergeItems(b, its)
  {
    if |a| == 0 {
      assert a + b == b;
    } else {
      assert (a + b)[0] == a[0] && (a + b)[1..] == a[1..] + b;
      MergeItemsAppend(a[1..], b, its);
    }
  }

  lemma {:induction false} MergeItemsOfIsJoinItems(c: Customer, s: Sale, o: Order, its: seq<Item>)
    ensures MergeItemsOf(CustomerOrder(c.customerId, c.age, s.salesId, o.itemId, o.quantity), its) == JoinItems(c, s, o, its)
  {
    if |its| != 0 {
      MergeItemsOfIsJoinItems(c, s, o, its[1..]);
    }
  }

  lemma {:induction false} MergeOrdersOfIsJoinOrders(c: Customer, s: Sale, os: seq<Order>, its: seq<Item>)
    ensures MergeItems(MergeOrdersOf(CustomerSale(c.customerId, c.age, s.salesId), os), its) == JoinOrders(c, s, os, its)
  {
    if |os| != 0 {
      var x := CustomerSale(c.customerId, c.age, s.salesId);
      var y := CustomerOrder(c.customerId, c.age, s.salesId, os[0].itemId, os[0].quantity);
      var head := if x.salesId == os[0].salesId then [y] else [];
      MergeItemsAppend(head, MergeOrdersOf(x, os[1..]), its);
      MergeOrdersOfIsJoinOrders(c, s, os[1..], its);
      MergeItemsOfIsJoinItems(c, s, os[0], its);
      assert MergeItems([y], its) == MergeItemsOf(y, its) + MergeItems([], its);
      assert MergeItems([y], its) == MergeItemsOf(y, its);
    }
  }

  lemma {:induction false} MergeSalesOfIsJoinSales(c: Customer, ss: seq<Sale>, os: seq<Order>, its: seq<Item>)
    ensures MergeItems(MergeOrders(MergeSalesOf(c, ss), os), its) == JoinSales(c, ss, os, its)
  {
    if |ss| != 0 {
      var x := CustomerSale(c.customerId, c.age, ss[0].salesId);
      var head := if c.customerId == ss[0].customerId then [x] else [];
      MergeOrdersAppend(head, MergeSalesOf(c, ss[1..]), os);
      MergeItemsAppend(MergeOrders(head, os), MergeOrders(MergeSalesOf(c, ss[1..]), os), its);
      MergeSalesOfIsJoinSales(c, ss[1..], os, its);
      MergeOrdersOfIsJoinOrders(c, ss[0], os, its);
      assert MergeOrders([x], os) == MergeOrdersOf(x, os) + MergeOrders([], os);
      assert MergeOrders([x], os) == MergeOrdersOf(x, os);
      assert MergeOrders(head, os) == if c.customerId == ss[0].customerId then MergeOrdersOf(x, os) else [];
    }
  }

  /** The pipeline's three pairwise merges give the query's join, line for line. */
  lemma {:induction false} MergedIsJoin(cs: seq<Customer>, ss: seq<Sale>, os: seq<Order>, its: seq<Item>)
    ensures MergeItems(MergeOrders(MergeSales(cs, ss), os), its) == Join(cs, ss, os, its)
  {
    if |cs| != 0 {
      MergeOrdersAppend(MergeSalesOf(cs[0], ss), MergeSales(cs[1..], ss), os);
      MergeItemsAppend(MergeOrders(MergeSalesOf(cs[0], ss), os), MergeOrders(MergeSales(cs[1..], ss), os), its);
      MergeSalesOfIsJoinSales(cs[0], ss, os, its);
      MergedIsJoin(cs[1..], ss, os, its);
    }
  }

  /** For every outcome of reading the database, the two solutions return the
      same rows in the same order; only the column labels differ. */
  lemma SolutionsAgree(db: Result<Store>)
    ensures PandasSolution(db).rows == SqlSolution(db).rows
    ensures db.Ok? ==> SqlSolution(db).columns == SqlColumns && PandasSolution(db).columns == OutputColumns
  {
    if db.Ok? {
      var st := db.value;
      MergedIsJoin(st.customers, st.sales, st.orders, st.items);
      assert RenameAll(GroupedColumns) == OutputColumns;
    }
  }

  /** An sqlite3.Error (connect or fetch failure) makes both solutions
      return an empty DataFrame. */
  lemma FailureGivesEmpty(db: Result<Store>)
    requires db.Err?
    ensures IsEmpty(SqlSolution(db)) && IsEmpty(PandasSolution(db))
  {
  }

  // ----------------------------------------------------------- main

  /** The content of output.csv: a header and the rows, ';'-separated, no index. */
  datatype Csv = Csv(header: seq<string>, rows: seq<Row>)

  /** What main writes to output.csv: the SQL result under OutputColumns,
      or nothing when that result is empty. */
  function OutputFile(db: Result<Store>): Option<Csv> {
    var sql := SqlSolution(db);
    if IsEmpty(sql) then None else Some(Csv(OutputColumns, sql.rows))
  }

  /** The file is written exactly when the database was read and some group qualifies. */
  lemma OutputWrittenIffRows(db: Result<Store>)
    ensures OutputFile(db).Some? <==> db.Ok? && Aggregate(db.value) != []
  {
  }

  /** Writing the pandas result under its own labels would give the same file. */
  lemma OutputMatchesPandas(db: Result<Store>)
    ensures OutputFile(db) == if IsEmpty(PandasSolution(db)) then None
                              else Some(Csv(PandasSolution(db).columns, PandasSolution(db).rows))
  {
    SolutionsAgree(db);
  }
}
