# Customer item totals: SQL query and pandas pipeline

`Assignment1.py` computes, from a sales database of four tables (Customer,
Sales, Orders, Items), how many units of items "x", "y" and "z" each
customer aged 18 to 35 bought. It does this twice:

- `sql_solution` runs one query. The query inner-joins the four tables and
  keeps rows with `age BETWEEN 18 AND 35` and `item_name IN ('x','y','z')`.
  It groups by `(customer_id, age, item_name)`, sums `quantity`, keeps the
  groups whose sum is positive, and orders by `customer_id, item_name`.
- `pandas_solution` loads the four tables and does the same work as a
  pipeline: three `merge` calls, a boolean mask, `groupby().sum()`,
  `rename`, `astype(int)`, a `> 0` mask and `sort_values`.

Both return an empty DataFrame when an `sqlite3.Error` is raised, that is
when connecting or fetching fails. `main`
writes the SQL result to `output.csv`, and only when that result is not
empty.

This project models that aggregation as Dafny functions over sequences of
records and proves what it promises.

- `tables.dfy` (module `Tables`) holds the records: a row type per table,
  the joined line, the grouping key and the output row. It also holds the
  outcome of reading the database, `Result<Store>`, whose `Err` case stands
  for an `sqlite3.Error` (a connect or fetch failure).
- `ordering.dfy` (module `Ordering`) defines the result order. Strings are
  compared lexicographically by code point. Keys are ordered by
  customer_id, then item_name, then age. Insertion sort realises the order.
- `query.dfy` (module `Query`) is the query as a specification. It holds
  the nested-loop inner join, the WHERE filter, GROUP BY with SUM, HAVING,
  ORDER BY, and `Aggregate`, which composes them. `TablesSum` is an
  independent reference: a group's total written as nested sums over the
  four tables. `AggregateCharacterized` states exactly which rows the
  result holds and that they are strictly sorted. `AnswerDetermined` shows
  that this description fixes the result.
- `properties.dfy` (module `Properties`) holds the promised properties of
  the result. The filters hold on every row and every total is positive.
  Each total is the table sum. There is one row per group, every qualifying
  group is present, and the rows are ordered. Orders and sales without a
  join partner change nothing. The worked example (3 + 2 units of "x")
  gives one row with total 5.
- `grouping.dfy` (module `Grouping`) builds the groups with a map of
  running sums in one loop, as a multi-map accumulation would. It is proved
  equal to `Groups`.
- `solutions.dfy` (module `Solutions`) holds the two solutions as
  DataFrames (column labels plus rows). The pandas merges are modelled pair
  by pair and proved equal to the query's join. The two solutions are
  proved to return the same rows in the same order, with column labels
  `customer_id, age, item_name, total_quantity` and
  `Customer, Age, Item, Quantity` respectively. `OutputFile` models what
  `main` writes.

## Model

| member | source | states |
|---|---|---|
| `Query.JoinMembers` | Assignment1.py:17-24 | a joined line is exactly a Customer, Sales, Orders and Items row combination meeting `c.customer_id = s.customer_id`, `s.sales_id = o.sales_id` and `o.item_id = i.item_id` (both directions) |
| `Query.Where` | Assignment1.py:25-27 | the filtered lines are exactly the joined lines whose age is in [18, 35] and whose item name is in {x, y, z} |
| `Query.TotalWhere` | Assignment1.py:25-29 | the WHERE clause keeps all of a group's lines or none: a qualifying group's sum equals its sum over the unfiltered join, and any other group sums to 0 |
| `Query.KeysMembers` | Assignment1.py:28-29 | the grouping keys are exactly the keys of the lines |
| `Query.KeysNoDuplicates` | Assignment1.py:28-29 | no grouping key is listed twice |
| `Query.Groups` | Assignment1.py:28-29 | GROUP BY yields one row per key present in the lines, carrying `SUM(quantity)` of that group, with no key twice |
| `Query.Having` | Assignment1.py:30-31 | HAVING keeps exactly the groups whose sum is strictly positive |
| `Query.HavingKeysDistinct` | Assignment1.py:30-31 | dropping groups keeps the remaining keys distinct |
| `Query.TotalJoin` | Assignment1.py:16-24 | a group's sum over the four-way join equals the sum read off the tables: over the customer rows with that id and age, their sales, the orders of each sale, of quantity times the number of Items rows giving that item_id that name |
| `Query.AggregateCharacterized` | Assignment1.py:11-34 | the query result is strictly sorted by (customer_id, item_name, age), and a row is in it if and only if its age and item name pass the filters, its total is the group's sum over the join, and that total is positive |
| `Query.AnswerDetermined` | Assignment1.py:32-33 | any strictly sorted sequence holding exactly those rows is the query result, so row set and order fix the answer |
| `Ordering.Insert` | Assignment1.py:32-33 | inserting a row adds exactly that row (multiset) |
| `Ordering.SortRows` | Assignment1.py:32-33 | sorting is a permutation of its input |
| `Ordering.SortRowsStrictlySorted` | Assignment1.py:32-33 | sorting rows with distinct keys gives strictly ascending keys |
| `Ordering.InsertStrictlySorted` | Assignment1.py:32-33 | inserting a row with a new key into a strictly sorted sequence keeps it strictly sorted |
| `Ordering.StrictlySortedUnique` | Assignment1.py:32-33 | two strictly sorted sequences with the same rows are equal |
| `Ordering.StrLessTotal` | Assignment1.py:33 | item names are totally ordered: of two different names one comes first |
| `Ordering.StrLessTransitive` | Assignment1.py:33 | the item-name order is transitive |
| `Ordering.StrLessIrreflexive` | Assignment1.py:33 | no item name comes before itself |
| `Properties.RowsAgeInRange` | Assignment1.py:26 | every result row has 18 <= age <= 35, both ends included |
| `Properties.RowsItemAllowed` | Assignment1.py:27 | every result row's item name is "x", "y" or "z"; any other name never appears |
| `Properties.RowsTotalPositive` | Assignment1.py:30-31 | every result row's total is strictly positive |
| `Properties.RowTotalIsTablesSum` | Assignment1.py:16-24 | every result row's total equals the sum of quantity read off the four tables for that customer, age and item name |
| `Properties.OneRowPerGroup` | Assignment1.py:28-29 | no two result rows share (customer_id, age, item_name) |
| `Properties.Complete` | Assignment1.py:25-31 | every key that passes the age and item filters and whose table sum is positive appears in the result with that sum |
| `Properties.SortedByCustomerThenItem` | Assignment1.py:32-33 | result rows ascend by customer_id, and by item_name among rows with equal customer_id |
| `Properties.UnmatchedOrderIgnored` | Assignment1.py:21-24 | removing an Orders row that matches no Sales row, or no Items row, leaves the result unchanged |
| `Properties.UnmatchedSaleIgnored` | Assignment1.py:19-20 | removing a Sales row that matches no Customer row leaves the result unchanged |
| `Properties.ExampleTotals` | Assignment1.py:11-34 | customer 1 aged 25 with orders of 3 and 2 units of item "x" in sale 10 yields exactly the row (1, 25, "x", 5) |
| `Grouping.SumByKey` | Assignment1.py:61 | one pass with a map of running sums yields the distinct keys in order of first appearance and, for each, its group's sum |
| `Grouping.GroupAndSum` | Assignment1.py:61 | the map-built groups are exactly `Groups` of the lines |
| `Solutions.MergedIsJoin` | Assignment1.py:53-55 | the three pairwise `merge` calls give the query's four-way inner join, line for line |
| `Solutions.SolutionsAgree` | Assignment1.py:53-67 | for every outcome of reading the database, the pandas solution returns the same rows in the same order as the SQL solution; on success their column labels are `customer_id, age, item_name, total_quantity` and `Customer, Age, Item, Quantity` |
| `Solutions.FailureGivesEmpty` | Assignment1.py:37-39 | an `sqlite3.Error` (connect or fetch failure) makes both solutions return an empty DataFrame |
| `Solutions.OutputWrittenIffRows` | Assignment1.py:90-100 | `output.csv` is written exactly when the database was read and some group qualifies |
| `Solutions.OutputMatchesPandas` | Assignment1.py:90-99 | the file written from the SQL result under header `Customer;Age;Item;Quantity` is the one the pandas result would give under its own labels |

## Left out

- Connecting to SQLite, reading the tables with `read_sql_query`, and closing the connection in `finally` (Assignment1.py:8-10, 35, 45-51, 72-74) are I/O. The model takes the tables as a `Store` value, or an `Err` for any `sqlite3.Error`.
- Printing to the console and the CSV serialisation itself (`to_csv` quoting, the `;` separator, no index column, `os.path.abspath`) are I/O. `OutputFile` keeps only the decision to write, the header and the rows.
- The casts are left out. `CAST(SUM(o.quantity) AS INTEGER)` and `astype(int)` leave an integer sum unchanged. So applying HAVING before the cast (SQL) or the `> 0` mask after it (pandas) keeps the same groups with the same totals, and the model has no cast step. Fractional quantities are not modelled.
- Errors raised while a query executes (a missing table, which is what a missing `sales_data.db` gives since `sqlite3.connect` creates an empty file, or SQLite's integer overflow in `SUM`) are re-raised by `read_sql_query` as pandas' `DatabaseError`, which is not an `sqlite3.Error`. They escape both `except` clauses (Assignment1.py:37, 69) and end the program. The model does not represent them: `Err` stands only for an `sqlite3.Error`.
- NULL quantities or ages, SQLite's integer-overflow error in `SUM`, and pandas' 64-bit wrap-around are not modelled. Quantities, ages and ids are unbounded integers.
- `Query.Aggregate`: when Customer holds two rows with the same customer_id and different ages, two result rows can share customer_id and item_name. SQLite's `ORDER BY customer_id, item_name` leaves their relative order unspecified, and the model orders such rows by age. pandas orders them by age as well: `groupby` has already sorted the groups by (customer_id, age, item_name), and `sort_values` on several columns is stable.
- pandas `groupby` sorts its groups by key before the final sort, and the model keeps them in order of first appearance. The final sort decides the result either way (`Query.AnswerDetermined`).
- SQLite collation is not modelled. Item names are compared by code point, as SQLite's default BINARY collation and Python both do for these names.
