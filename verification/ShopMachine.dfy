/**
 The shop's cart and checkout handlers (server/src/server.js) as a state machine. Any number of requests run
 at once on any number of server instances; every pool.query is one atomic step, and between two statements
 of a request any statement of another may run. There are no transactions.
 */
module ShopMachine {
  import opened Tables
  import Decimal
  import Money

  /** Names one request; which instance the load balancer picks for it makes no difference to the tables. */
  type Pid = nat

  datatype Request =
    | Show(session: SessionId)                                       // GET    /api/cart
    | Add(session: SessionId, product: ProductId, quantity: int)     // POST   /api/cart
    | Update(session: SessionId, product: ProductId, quantity: int)  // PUT    /api/cart/:id
    | Remove(session: SessionId, product: ProductId)                 // DELETE /api/cart/:id
    | Clear(session: SessionId)                                      // DELETE /api/cart
    | Checkout(session: SessionId)                                   // POST   /api/orders

  /** Status 200, 201, 404, the 400 of an empty cart, and the 400 or 500 of a handler's catch block. */
  datatype Answer = Okay | Created | ProductMissing | CartEmpty | Failed

  /** Where a handler stands: the statement it sends next, with its local variables. */
  datatype Process =
    | Showing(session: SessionId)
    | AddChecking(session: SessionId, product: ProductId, quantity: int)   // SELECT the product
    | AddLooking(session: SessionId, product: ProductId, quantity: int)    // SELECT the existing cart row
    | AddUpdating(session: SessionId, product: ProductId, quantity: int)   // UPDATE quantity + $1
    | AddInserting(session: SessionId, product: ProductId, quantity: int)  // INSERT the cart row
    | Setting(session: SessionId, product: ProductId, quantity: int)       // DELETE or UPDATE one row
    | Removing(session: SessionId, product: ProductId)                     // DELETE one row
    | Clearing(session: SessionId)                                         // DELETE the session's rows
    | Rereading(session: SessionId)                                        // SELECT the cart for the answer
    | CartReading(session: SessionId)                                      // checkout: SELECT the cart
    | Counting(session: SessionId, rows: seq<CartRow>, total: real)        // SELECT COUNT(*) + 1
    | OrderInserting(session: SessionId, rows: seq<CartRow>, total: real, count: nat)
    | ItemInserting(session: SessionId, rows: seq<CartRow>, id: OrderId, next: nat)
    | CartClearing(session: SessionId, rows: seq<CartRow>, id: OrderId)
    | OrderReading(session: SessionId, rows: seq<CartRow>, id: OrderId)
    | ItemsReading(session: SessionId, rows: seq<CartRow>, id: OrderId)
    | Done(session: SessionId, answer: Answer, wrote: bool)                // wrote: did a write statement succeed?

  datatype State = State(db: Db, processes: map<Pid, Process>)

  /**
   One step of the system. Execute runs a process's next statement; its last three fields are what the outside
   decides: the order in which a SELECT returns cart rows, a double the handler computes after the statement
   or before it, and the cents a DECIMAL column stores for such a double. Refuse is a statement that fails
   for a reason outside the tables (a lost connection, a value of the wrong type, a body that does not parse).
   */
  datatype Event =
    | Begin(pid: Pid, request: Request)
    | Execute(pid: Pid, rows: seq<CartRow>, amount: real, cents: int)
    | Refuse(pid: Pid)

  function Initial(): State {
    State(Db(map[], map[], []), map[])
  }

  function Start(request: Request): Process {
    match request
    case Show(s) => Showing(s)
    case Add(s, p, q) => AddChecking(s, p, q)
    case Update(s, p, q) => Setting(s, p, q)
    case Remove(s, p) => Removing(s, p)
    case Clear(s) => Clearing(s)
    case Checkout(s) => CartReading(s)
  }

  /** The row the checkout loop inserts for one cart row. */
  function OrderItem(id: OrderId, row: CartRow, subtotal: int): ItemRow {
    ItemRow(id, row.product, row.name, row.price, row.quantity, subtotal)
  }

  function AfterItem(session: SessionId, rows: seq<CartRow>, id: OrderId, next: nat): Process {
    if next < |rows| then ItemInserting(session, rows, id, next) else CartClearing(session, rows, id)
  }

  /** A handler's continuation after a cart write: the answer's SELECT, or the catch block. */
  function Written(db: Db, p: Process, outcome: Outcome): (Db, Process) {
    match outcome
    case Rejected => (db, Done(p.session, Failed, false))
    case Accepted(after) => (after, Rereading(p.session))
  }

  /** The effect of a process's next statement on the tables, and the process's next place. */
  function Statement(catalogue: Catalogue, db: Db, p: Process, rows: seq<CartRow>, amount: real,
                     cents: int): (Db, Process)
  {
    match p
    case Showing(s) => (db, Done(s, Okay, false))
    case AddChecking(s, product, q) =>
      (db, if product in catalogue then AddLooking(s, product, q) else Done(s, ProductMissing, false))
    case AddLooking(s, product, q) =>
      (db, if CartKey(s, product) in db.cart then AddUpdating(s, product, q) else AddInserting(s, product, q))
    case AddUpdating(s, product, q) => Written(db, p, AddQuantity(db, CartKey(s, product), q))
    case AddInserting(s, product, q) => Written(db, p, InsertCartItem(catalogue, db, CartKey(s, product), q))
    case Setting(s, product, q) =>
      Written(db, p, if q <= 0 then Accepted(DeleteCartItem(db, CartKey(s, product)))
                     else SetQuantity(db, CartKey(s, product), q))
    case Removing(s, product) => (DeleteCartItem(db, CartKey(s, product)), Rereading(s))
    case Clearing(s) => (DeleteCart(db, s), Done(s, Okay, true))
    case Rereading(s) => (db, Done(s, Okay, true))
    case CartReading(s) => (db, if rows == [] then Done(s, CartEmpty, false) else Counting(s, rows, amount))
    case Counting(s, snapshot, total) => (db, OrderInserting(s, snapshot, total, |db.orders|))
    case OrderInserting(s, snapshot, total, count) =>
      var id := Decimal.OrderId(count + 1);
      (match InsertOrder(db, id, cents)
       case Rejected => (db, Done(s, Failed, false))
       case Accepted(after) => (after, AfterItem(s, snapshot, id, 0)))
    case ItemInserting(s, snapshot, id, k) =>
      if k >= |snapshot| then (db, p)
      else (match InsertOrderItem(catalogue, db, OrderItem(id, snapshot[k], cents))
            case Rejected => (db, Done(s, Failed, true))
            case Accepted(after) => (after, AfterItem(s, snapshot, id, k + 1)))
    case CartClearing(s, snapshot, id) => (DeleteCart(db, s), OrderReading(s, snapshot, id))
    case OrderReading(s, snapshot, id) =>
      (db, if id in db.orders then ItemsReading(s, snapshot, id) else Done(s, Failed, true))
    case ItemsReading(s, snapshot, id) => (db, Done(s, Created, true))
    case Done(_, _, _) => (db, p)
  }

  /** Has a write statement of this process succeeded? */
  predicate Wrote(p: Process) {
    match p
    case Rereading(_) => true
    case ItemInserting(_, _, _, _) => true
    case CartClearing(_, _, _) => true
    case OrderReading(_, _, _) => true
    case ItemsReading(_, _, _) => true
    case Done(_, _, wrote) => wrote
    case _ => false
  }

  predicate IsActive(p: Process) {
    !p.Done?
  }

  /** Are the outside's choices ones that the database and the floating-point unit can make at this statement? */
  ghost predicate Possible(catalogue: Catalogue, db: Db, p: Process, rows: seq<CartRow>, amount: real, cents: int) {
    match p
    case CartReading(s) => Lists(catalogue, db.cart, s, rows) && Money.Accumulates(LinesOf(rows), amount)
    case OrderInserting(_, _, total, _) => Money.Stored(total, cents)
    case ItemInserting(_, snapshot, _, k) =>
      k < |snapshot| && Money.Product(LineOf(snapshot[k]), amount) && Money.Stored(amount, cents)
    case Showing(s) => Lists(catalogue, db.cart, s, rows)
    case Rereading(s) => Lists(catalogue, db.cart, s, rows)
    case _ => true
  }

  ghost predicate Enabled(catalogue: Catalogue, s: State, e: Event) {
    match e
    case Begin(pid, _) => pid !in s.processes
    case Refuse(pid) => pid in s.processes && IsActive(s.processes[pid])
    case Execute(pid, rows, amount, cents) =>
      pid in s.processes && IsActive(s.processes[pid])
      && Possible(catalogue, s.db, s.processes[pid], rows, amount, cents)
  }

  function Apply(catalogue: Catalogue, s: State, e: Event): State {
    match e
    case Begin(pid, request) => s.(processes := s.processes[pid := Start(request)])
    case Refuse(pid) =>
      if pid !in s.processes then s
      else s.(processes := s.processes[pid := Done(s.processes[pid].session, Failed, Wrote(s.processes[pid]))])
    case Execute(pid, rows, amount, cents) =>
      if pid !in s.processes then s
      else
        var (db, p) := Statement(catalogue, s.db, s.processes[pid], rows, amount, cents);
        State(db, s.processes[pid := p])
  }

  /** The state after a sequence of events. */
  function After(catalogue: Catalogue, es: seq<Event>): State {
    if es == [] then Initial() else Apply(catalogue, After(catalogue, es[..|es| - 1]), es[|es| - 1])
  }

  /** A run: every event was enabled when it happened. */
  ghost predicate IsRun(catalogue: Catalogue, es: seq<Event>) {
    es == [] ||
    (IsRun(catalogue, es[..|es| - 1]) && Enabled(catalogue, After(catalogue, es[..|es| - 1]), es[|es| - 1]))
  }

  lemma {:induction false} PrefixIsRun(catalogue: Catalogue, es: seq<Event>, n: nat)
    requires IsRun(catalogue, es) && n <= |es|
    ensures IsRun(catalogue, es[..n])
    decreases |es|
  {
    if n < |es| {
      PrefixIsRun(catalogue, es[..|es| - 1], n);
      assert es[..|es| - 1][..n] == es[..n];
    } else {
      assert es[..n] == es;
    }
  }

  predicate ChangesCart(p: Process) {
    p.AddUpdating? || p.AddInserting? || p.Setting? || p.Removing? || p.Clearing? || p.CartClearing?
  }

  /** Which statements can change which table. */
  lemma StatementFrame(catalogue: Catalogue, db: Db, p: Process, rows: seq<CartRow>, amount: real, cents: int)
    ensures var (after, p') := Statement(catalogue, db, p, rows, amount, cents);
            && (after.orders != db.orders ==> p.OrderInserting?)
            && (after.items != db.items ==> p.ItemInserting?)
            && (after.cart != db.cart ==> ChangesCart(p))
            && (p'.OrderInserting? ==> p.Counting? && p'.count == |db.orders|)
            && p'.session == p.session
  {
    hide WithoutSession, Decimal.OrderId, LinesOf;
    if p.OrderInserting? {
    } else if p.ItemInserting? {
    } else if ChangesCart(p) {
    } else {
    }
  }

  /** The request that a process serves. */
  function Requests(es: seq<Event>): map<Pid, Request> {
    if es == [] then map[]
    else
      var before := Requests(es[..|es| - 1]);
      match es[|es| - 1]
      case Begin(pid, request) => before[pid := request]
      case _ => before
  }

  /** A process carries the parameters of its own request. */
  ghost predicate Serves(p: Process, r: Request) {
    && p.session == r.session
    && match p
       case Showing(_) => r.Show?
       case AddChecking(_, product, q) => r.Add? && r.product == product && r.quantity == q
       case AddLooking(_, product, q) => r.Add? && r.product == product && r.quantity == q
       case AddUpdating(_, product, q) => r.Add? && r.product == product && r.quantity == q
       case AddInserting(_, product, q) => r.Add? && r.product == product && r.quantity == q
       case Setting(_, product, q) => r.Update? && r.product == product && r.quantity == q
       case Removing(_, product) => r.Remove? && r.product == product
       case Clearing(_) => r.Clear?
       case Rereading(_) => r.Add? || r.Update? || r.Remove?
       case Done(_, _, _) => true
       case _ => r.Checkout?
  }

  lemma StatementServes(catalogue: Catalogue, db: Db, p: Process, rows: seq<CartRow>, amount: real, cents: int,
                        r: Request)
    requires Serves(p, r)
    ensures Serves(Statement(catalogue, db, p, rows, amount, cents).1, r)
  {}

  ghost predicate AllServe(processes: map<Pid, Process>, requests: map<Pid, Request>) {
    processes.Keys == requests.Keys && forall pid :: pid in requests ==> Serves(processes[pid], requests[pid])
  }

  lemma OneMoreServes(processes: map<Pid, Process>, requests: map<Pid, Request>, pid: Pid, p: Process, r: Request)
    requires AllServe(processes, requests) && Serves(p, r) && (pid in requests ==> r == requests[pid])
    ensures AllServe(processes[pid := p], requests[pid := r])
  {}

  lemma StepServes(catalogue: Catalogue, s: State, e: Event, requests: map<Pid, Request>)
    requires Enabled(catalogue, s, e) && AllServe(s.processes, requests)
    ensures AllServe(Apply(catalogue, s, e).processes, if e.Begin? then requests[e.pid := e.request] else requests)
  {
    var r := if e.Begin? then e.request else requests[e.pid];
    if e.Execute? {
      StatementServes(catalogue, s.db, s.processes[e.pid], e.rows, e.amount, e.cents, r);
    }
    OneMoreServes(s.processes, requests, e.pid, Apply(catalogue, s, e).processes[e.pid], r);
    assert !e.Begin? ==> requests[e.pid := r] == requests;
  }

  lemma {:induction false} ProcessesServeTheirRequests(catalogue: Catalogue, es: seq<Event>)
    requires IsRun(catalogue, es)
    ensures AllServe(After(catalogue, es).processes, Requests(es))
  {
    if es != [] {
      var before := es[..|es| - 1];
      ProcessesServeTheirRequests(catalogue, before);
      StepServes(catalogue, After(catalogue, before), es[|es| - 1], Requests(before));
    }
  }

  /** The foreign key of cart_items: every cart row refers to a product of the catalogue. */
  ghost predicate CartInCatalogue(catalogue: Catalogue, cart: Cart) {
    forall key :: key in cart ==> key.product in catalogue
  }

  lemma StatementStaysInCatalogue(catalogue: Catalogue, db: Db, p: Process, rows: seq<CartRow>, amount: real,
                                  cents: int)
    requires CartInCatalogue(catalogue, db.cart)
    ensures CartInCatalogue(catalogue, Statement(catalogue, db, p, rows, amount, cents).0.cart)
  {
    if !ChangesCart(p) {
      StatementFrame(catalogue, db, p, rows, amount, cents);
    }
  }

  lemma {:induction false} CartStaysInCatalogue(catalogue: Catalogue, es: seq<Event>)
    requires IsRun(catalogue, es)
    ensures CartInCatalogue(catalogue, After(catalogue, es).db.cart)
  {
    if es != [] {
      var before, e := es[..|es| - 1], es[|es| - 1];
      CartStaysInCatalogue(catalogue, before);
      var s := After(catalogue, before);
      if e.Execute? {
        StatementStaysInCatalogue(catalogue, s.db, s.processes[e.pid], e.rows, e.amount, e.cents);
      }
    }
  }
}
