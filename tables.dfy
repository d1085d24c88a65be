/** The four input tables of the sales database, the rows the aggregation
    produces, and the outcome of reading the database. Quantities and ages
    are plain integers: the tables hold no NULLs. */
module Tables {

  /** A row of table Customer. */
  datatype Customer = Customer(customerId: int, age: int)

  /** A row of table Sales: one sale, made by one customer. */
  datatype Sale = Sale(salesId: int, customerId: int)

  /** A row of table Orders: a quantity of one item within one sale. */
  datatype Order = Order(salesId: int, itemId: int, quantity: int)

  /** A row of table Items. */
  datatype Item = Item(itemId: int, itemName: string)

  /** The whole database as read by the two solutions. */
  datatype Store = Store(customers: seq<Customer>, sales: seq<Sale>, orders: seq<Order>, items: seq<Item>)

  /** A row of Customer ⋈ Sales ⋈ Orders ⋈ Items, with the columns the aggregation reads. */
  datatype Line = Line(customerId: int, age: int, salesId: int, itemId: int, quantity: int, itemName: string)

  /** The grouping key (customer_id, age, item_name). */
  datatype Key = Key(customerId: int, age: int, itemName: string)

  /** An output row (customer_id, age, item_name, total quantity). */
  datatype Row = Row(customerId: int, age: int, itemName: string, total: int)

  function KeyOf(l: Line): Key {
    Key(l.customerId, l.age, l.itemName)
  }

  function RowKey(r: Row): Key {
    Key(r.customerId, r.age, r.itemName)
  }

  /** An sqlite3.Error: connecting to the database or fetching rows failed. */
  datatype DbError = DbError(message: string)

  /** Outcome of reading the database; Err is an sqlite3.Error, the only
      error the solutions catch. */
  datatype Result<+T> = Ok(value: T) | Err(error: DbError)

  datatype Option<+T> = None | Some(value: T)
}
