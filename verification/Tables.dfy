/**
 The three tables the shop writes and the SQL statements its handlers send, one atomic statement each
 (server/db/schema.sql). A statement either is accepted with the new tables or is rejected by a constraint.
 */
module Tables {
  import Money

  type SessionId = string
  type ProductId = string
  type OrderId = string

  datatype Product = Product(name: string, price: nat)

  /** The products table: fixed while the shop runs; prices in cents. */
  type Catalogue = map<ProductId, Product>

  /** UNIQUE(product_id, session_id): a cart row is a quantity under this key. */
  datatype CartKey = CartKey(session: SessionId, product: ProductId)

  type Cart = map<CartKey, int>

  datatype ItemRow = ItemRow(order: OrderId, product: ProductId, name: string, price: nat, quantity: int, subtotal: int)

  /** cart_items; orders (primary key to total_amount in cents); order_items in insertion order. */
  datatype Db = Db(cart: Cart, orders: map<OrderId, int>, items: seq<ItemRow>)

  /** One row of the join of cart_items with products. */
  datatype CartRow = CartRow(product: ProductId, quantity: int, name: string, price: nat)

  datatype Outcome = Rejected | Accepted(db: Db)

  /** PostgreSQL INTEGER. */
  predicate IsInteger(n: int) {
    -0x8000_0000 <= n < 0x8000_0000
  }

  /** UPDATE cart_items SET quantity = quantity + $1 WHERE product_id = $2 AND session_id = $3 */
  function AddQuantity(db: Db, key: CartKey, quantity: int): Outcome {
    if !IsInteger(quantity) then Rejected
    else if key !in db.cart then Accepted(db)
    else if !IsInteger(db.cart[key] + quantity) then Rejected
    else Accepted(db.(cart := db.cart[key := db.cart[key] + quantity]))
  }

  /** INSERT INTO cart_items (product_id, quantity, session_id) VALUES ($1, $2, $3) */
  function InsertCartItem(catalogue: Catalogue, db: Db, key: CartKey, quantity: int): Outcome {
    if !IsInteger(quantity) || |key.session| > 255 || key.product !in catalogue || key in db.cart then Rejected
    else Accepted(db.(cart := db.cart[key := quantity]))
  }

  /** UPDATE cart_items SET quantity = $1 WHERE product_id = $2 AND session_id = $3 */
  function SetQuantity(db: Db, key: CartKey, quantity: int): Outcome {
    if !IsInteger(quantity) then Rejected
    else if key !in db.cart then Accepted(db)
    else Accepted(db.(cart := db.cart[key := quantity]))
  }

  /** DELETE FROM cart_items WHERE product_id = $1 AND session_id = $2 */
  function DeleteCartItem(db: Db, key: CartKey): Db {
    db.(cart := db.cart - {key})
  }

  function WithoutSession(cart: Cart, session: SessionId): Cart {
    map key | key in cart && key.session != session :: cart[key]
  }

  /** DELETE FROM cart_items WHERE session_id = $1 */
  function DeleteCart(db: Db, session: SessionId): Db {
    db.(cart := WithoutSession(db.cart, session))
  }

  /** INSERT INTO orders (id, ..., total_amount): the primary key, VARCHAR(50) and DECIMAL(10,2) may reject it. */
  function InsertOrder(db: Db, id: OrderId, total: int): Outcome {
    if id in db.orders || |id| > 50 || !Money.Fits(total) then Rejected
    else Accepted(db.(orders := db.orders[id := total]))
  }

  /** INSERT INTO order_items: the foreign keys and DECIMAL(10,2) may reject it. */
  function InsertOrderItem(catalogue: Catalogue, db: Db, row: ItemRow): Outcome {
    if row.order !in db.orders || row.product !in catalogue || !Money.Fits(row.subtotal) then Rejected
    else Accepted(db.(items := db.items + [row]))
  }

  /** SELECT * FROM order_items WHERE order_id = $1, in insertion order. */
  function ItemsOf(items: seq<ItemRow>, id: OrderId): seq<ItemRow> {
    if items == [] then []
    else
      var rest, row := ItemsOf(items[..|items| - 1], id), items[|items| - 1];
      if row.order == id then rest + [row] else rest
  }

  predicate IsRowOf(catalogue: Catalogue, cart: Cart, session: SessionId, row: CartRow) {
    var key := CartKey(session, row.product);
    key in cart && row.product in catalogue && row.quantity == cart[key] &&
    row.name == catalogue[row.product].name && row.price == catalogue[row.product].price
  }

  /** rows is one of the orders in which the join of a session's cart rows with products may come back. */
  ghost predicate Lists(catalogue: Catalogue, cart: Cart, session: SessionId, rows: seq<CartRow>) {
    && (forall i :: 0 <= i < |rows| ==> IsRowOf(catalogue, cart, session, rows[i]))
    && (forall i, j :: 0 <= i < j < |rows| ==> rows[i].product != rows[j].product)
    && (forall key :: key in cart && key.session == session && key.product in catalogue ==>
          exists i :: 0 <= i < |rows| && rows[i].product == key.product)
  }

  function LineOf(row: CartRow): Money.Line {
    Money.Line(row.price, row.quantity)
  }

  function LinesOf(rows: seq<CartRow>): (lines: seq<Money.Line>)
    ensures |lines| == |rows| && forall i :: 0 <= i < |rows| ==> lines[i] == LineOf(rows[i])
  {
    seq(|rows|, i requires 0 <= i < |rows| => LineOf(rows[i]))
  }
}
