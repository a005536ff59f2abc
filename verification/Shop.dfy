/**
 The cart and checkout handlers as server/src/server.js writes them: statement after statement on tables that are
 changed in place, while other requests run in every wait. Each handler is proved to be one process of ShopMachine:
 what it leaves behind is a run of the machine in which its request is done with the handler's answer.
 */
module Shop {
  import opened Tables
  import opened ShopMachine
  import opened OrderNumbering
  import opened OrderOwnership
  import Decimal
  import Money

  /**
   Everything the handlers do not decide: what other requests do while one waits, which statements are refused, in
   which order a SELECT lists a cart, how a double operation rounds, and which decimal text a double is sent as.
   */
  datatype Outside = Outside(others: (seq<Event>, Pid) -> seq<Event>, refuses: seq<Event> -> bool,
                             list: (seq<Event>, SessionId) -> seq<CartRow>, round: real -> real, text: real -> real)

  /** The run goes on with events of other requests. */
  ghost predicate GoesOn(catalogue: Catalogue, log: seq<Event>, events: seq<Event>, pid: Pid) {
    IsRun(catalogue, log + events) && forall k :: 0 <= k < |events| ==> events[k].pid != pid
  }

  /** Whatever has happened so far, others go on with the run, lists are lists of the cart, and rounding is rounding. */
  ghost predicate IsFair(catalogue: Catalogue, outside: Outside) {
    && (forall log, pid {:trigger outside.others(log, pid)} ::
          IsRun(catalogue, log) && pid in After(catalogue, log).processes ==>
            GoesOn(catalogue, log, outside.others(log, pid), pid))
    && (forall log, session {:trigger outside.list(log, session)} ::
          IsRun(catalogue, log) ==>
            Lists(catalogue, After(catalogue, log).db.cart, session, outside.list(log, session)))
    && (forall x :: Money.Rounds(x, outside.round(x)))
    && (forall x :: Money.Rounds(x, outside.text(x)))
  }

  lemma OneMoreEvent(catalogue: Catalogue, log: seq<Event>, e: Event)
    requires IsRun(catalogue, log) && Enabled(catalogue, After(catalogue, log), e)
    ensures IsRun(catalogue, log + [e]) && After(catalogue, log + [e]) == Apply(catalogue, After(catalogue, log), e)
  {
    assert (log + [e])[..|log|] == log;
  }

  lemma NextEvent(catalogue: Catalogue, log: seq<Event>, events: seq<Event>, k: nat)
    requires IsRun(catalogue, log + events) && k < |events|
    ensures Enabled(catalogue, After(catalogue, log + events[..k]), events[k])
    ensures log + events[..k + 1] == log + events[..k] + [events[k]]
  {
    PrefixIsRun(catalogue, log + events, |log| + k + 1);
    var whole := (log + events)[..|log| + k + 1];
    assert whole[..|whole| - 1] == log + events[..k];
  }

  lemma OthersLeaveProcess(catalogue: Catalogue, s: State, e: Event, pid: Pid)
    requires pid in s.processes && e.pid != pid
    ensures pid in Apply(catalogue, s, e).processes && Apply(catalogue, s, e).processes[pid] == s.processes[pid]
  {}

  /** parseFloat(item.price) * item.quantity */
  method Multiply(outside: Outside, row: CartRow) returns (product: real)
    requires forall x :: Money.Rounds(x, outside.round(x))
    ensures Money.Product(LineOf(row), product)
  {
    var price := outside.round(Money.Dollars(row.price));
    product := outside.round(price * row.quantity as real);
  }

  /** The loop over cartResult.rows that accumulates totalAmount. */
  method SumUp(outside: Outside, rows: seq<CartRow>) returns (total: real)
    requires forall x :: Money.Rounds(x, outside.round(x))
    ensures Money.Accumulates(LinesOf(rows), total)
  {
    total := 0.0;
    for i := 0 to |rows|
      invariant Money.Accumulates(LinesOf(rows[..i]), total)
    {
      var product := Multiply(outside, rows[i]);
      var lines := LinesOf(rows[..i + 1]);
      assert lines[..|lines| - 1] == LinesOf(rows[..i]);
      total := outside.round(total + product);
    }
    assert rows[..|rows|] == rows;
  }

  /** What a DECIMAL(10,2) column makes of a double. */
  method Store(outside: Outside, x: real) returns (cents: int)
    requires forall x :: Money.Rounds(x, outside.text(x))
    ensures Money.Stored(x, cents)
  {
    cents := Money.HalfAway(100.0 * outside.text(x));
  }

  /** What a checkout that is reading its order back finds. */
  lemma OrderReadBack(catalogue: Catalogue, log: seq<Event>, pid: Pid)
    requires IsRun(catalogue, log) && pid in After(catalogue, log).processes
    requires After(catalogue, log).processes[pid].ItemsReading?
    ensures var s := After(catalogue, log);
            var p := s.processes[pid];
            var found := ItemsOf(s.db.items, p.id);
            && p.rows != [] && WasCart(catalogue, log, p.session, p.rows)
            && p.id in s.db.orders && |found| == |p.rows| && IsPrefixFor(found, p.id, p.rows)
            && (forall i :: 0 <= i < |found| ==>
                  && found[i].product == p.rows[i].product && found[i].quantity == p.rows[i].quantity
                  && IsCatalogued(catalogue, found[i].product, found[i].name, found[i].price))
            && (Exact(p.rows) ==> s.db.orders[p.id] == SubtotalSum(found) == Money.ExactTotal(LinesOf(p.rows)))
  {
    hide IsRun, After, ItemsOf, Exact, WasCart, IsCatalogued;
    RereadSeesTheWholeOrder(catalogue, log, pid);
    SnapshotsWereCarts(catalogue, log);
    ItemsAreCatalogued(catalogue, log);
  }

  class Server {
    const catalogue: Catalogue
    var cart: Cart
    var orders: map<OrderId, int>
    var items: seq<ItemRow>
    var processes: map<Pid, Process>  // where every request stands
    var log: seq<Event>               // what has happened so far

    ghost function Contents(): Db
      reads this
    {
      Db(cart, orders, items)
    }

    ghost predicate Valid()
      reads this
    {
      IsRun(catalogue, log) && After(catalogue, log) == State(Contents(), processes)
    }

    constructor (catalogue: Catalogue)
      ensures Valid() && log == [] && this.catalogue == catalogue
    {
      this.catalogue := catalogue;
      cart, orders, items, processes, log := map[], map[], [], map[], [];
    }

    ghost function Now(): State
      reads this
    {
      State(Contents(), processes)
    }

    /** Something else happens: another request begins, executes a statement, or has one refused. */
    method Happen(e: Event)
      requires Valid() && Enabled(catalogue, Now(), e)
      modifies this
      ensures Valid() && log == old(log) + [e] && Now() == Apply(catalogue, old(Now()), e)
    {
      OneMoreEvent(catalogue, log, e);
      var next := Apply(catalogue, State(Db(cart, orders, items), processes), e);
      cart, orders, items, processes := next.db.cart, next.db.orders, next.db.items, next.processes;
      log := log + [e];
    }

    /** Since the call the run went on, and request pid stands at p. */
    twostate predicate Continues(pid: Pid, p: Process)
      reads this
    {
      Valid() && old(log) <= log && pid in processes && processes[pid] == p
    }

    method NewPid() returns (pid: Pid)
      ensures pid !in processes
    {
      var rest := processes.Keys;
      pid := 0;
      while rest != {}
        invariant rest <= processes.Keys
        invariant forall q :: q in processes && q !in rest ==> q < pid
        decreases rest
      {
        var q :| q in rest;
        rest := rest - {q};
        pid := if q < pid then pid else q + 1;
      }
    }

    method Begin(request: Request) returns (pid: Pid)
      requires Valid()
      modifies this
      ensures Continues(pid, Start(request)) && pid !in old(processes) && log == old(log) + [Event.Begin(pid, request)]
    {
      pid := NewPid();
      Happen(Event.Begin(pid, request));
    }

    method Yield(events: seq<Event>, pid: Pid)
      requires Valid() && GoesOn(catalogue, log, events, pid) && pid in processes
      modifies this
      ensures Valid() && log == old(log) + events && pid in processes && processes[pid] == old(processes[pid])
    {
      ghost var before := log;
      assert before + events[..0] == before;
      for k := 0 to |events|
        invariant Valid() && log == before + events[..k]
        invariant pid in processes && processes[pid] == old(processes[pid])
      {
        NextEvent(catalogue, before, events, k);
        OthersLeaveProcess(catalogue, Now(), events[k], pid);
        hide Enabled, After, IsRun, Apply;
        Happen(events[k]);
      }
      assert before + events[..|events|] == before + events;
    }

    /** A handler waits for its next statement: others run, and the statement may be refused. */
    method Await(outside: Outside, pid: Pid) returns (ok: bool)
      requires Valid() && IsFair(catalogue, outside) && pid in processes && IsActive(processes[pid])
      modifies this
      ensures ok ==> Continues(pid, old(processes[pid]))
      ensures !ok ==> Continues(pid, Done(old(processes[pid]).session, Failed, Wrote(old(processes[pid]))))
    {
      var events := outside.others(log, pid);
      assert GoesOn(catalogue, log, events, pid);
      Yield(events, pid);
      ok := !outside.refuses(log);
      if !ok {
        Happen(Refuse(pid));
      }
    }

    // ----- the SQL statements that write, in place

    method AddQuantity(key: CartKey, quantity: int) returns (accepted: bool)
      modifies `cart
      ensures Tables.AddQuantity(old(Contents()), key, quantity) == if accepted then Accepted(Contents()) else Rejected
      ensures !accepted ==> Contents() == old(Contents())
    {
      if !IsInteger(quantity) { return false; }
      if key in cart {
        if !IsInteger(cart[key] + quantity) { return false; }
        cart := cart[key := cart[key] + quantity];
      }
      return true;
    }

    method InsertCartItem(key: CartKey, quantity: int) returns (accepted: bool)
      modifies `cart
      ensures Tables.InsertCartItem(catalogue, old(Contents()), key, quantity) ==
              if accepted then Accepted(Contents()) else Rejected
      ensures !accepted ==> Contents() == old(Contents())
    {
      if !IsInteger(quantity) || |key.session| > 255 || key.product !in catalogue || key in cart { return false; }
      cart := cart[key := quantity];
      return true;
    }

    method SetQuantity(key: CartKey, quantity: int) returns (accepted: bool)
      modifies `cart
      ensures Tables.SetQuantity(old(Contents()), key, quantity) == if accepted then Accepted(Contents()) else Rejected
      ensures !accepted ==> Contents() == old(Contents())
    {
      if !IsInteger(quantity) { return false; }
      if key in cart {
        cart := cart[key := quantity];
      }
      return true;
    }

    method InsertOrder(id: OrderId, total: int) returns (accepted: bool)
      modifies `orders
      ensures Tables.InsertOrder(old(Contents()), id, total) == if accepted then Accepted(Contents()) else Rejected
      ensures !accepted ==> Contents() == old(Contents())
    {
      if id in orders || |id| > 50 || !Money.Fits(total) { return false; }
      orders := orders[id := total];
      return true;
    }

    method InsertOrderItem(row: ItemRow) returns (accepted: bool)
      modifies `items
      ensures Tables.InsertOrderItem(catalogue, old(Contents()), row) ==
              if accepted then Accepted(Contents()) else Rejected
      ensures !accepted ==> Contents() == old(Contents())
    {
      if row.order !in orders || row.product !in catalogue || !Money.Fits(row.subtotal) { return false; }
      items := items + [row];
      return true;
    }

    // ----- the handlers

    /** The statement that request pid was waiting for has been executed on the tables, and pid moves on to next. */
    method Proceed(ghost before: Db, pid: Pid, next: Process, rows: seq<CartRow>, amount: real, cents: int)
      requires IsRun(catalogue, log) && After(catalogue, log) == State(before, processes)
      requires pid in processes && IsActive(processes[pid])
      requires Possible(catalogue, before, processes[pid], rows, amount, cents)
      requires Statement(catalogue, before, processes[pid], rows, amount, cents) == (Contents(), next)
      modifies `processes, `log
      ensures Continues(pid, next) && Contents() == old(Contents())
      ensures log == old(log) + [Execute(pid, rows, amount, cents)]
    {
      OneMoreEvent(catalogue, log, Execute(pid, rows, amount, cents));
      processes := processes[pid := next];
      log := log + [Execute(pid, rows, amount, cents)];
    }

    /** The request was begun by this call as pid and is done with this answer; with a cart, if the answer has one. */
    twostate predicate Answered(pid: Pid, request: Request, answer: Answer)
      reads this
    {
      && Valid() && pid !in old(processes) && old(log) + [Event.Begin(pid, request)] <= log
      && pid in processes && processes[pid].Done? && processes[pid].answer == answer
    }

    method SelectProduct(outside: Outside, pid: Pid, session: SessionId, product: ProductId, quantity: int)
      returns (answer: Answer, known: bool)
      requires Valid() && IsFair(catalogue, outside) && pid in processes
      requires processes[pid] == AddChecking(session, product, quantity)
      modifies this
      ensures Continues(pid, if known then AddLooking(session, product, quantity) else Done(session, answer, false))
      ensures known <==> answer == Okay
    {
      var ok := Await(outside, pid);
      if !ok { return Failed, false; }
      known := product in catalogue;
      Proceed(Contents(), pid,
              if known then AddLooking(session, product, quantity) else Done(session, ProductMissing, false),
              [], 0.0, 0);
      answer := if known then Okay else ProductMissing;
    }

    method SelectCartItem(outside: Outside, pid: Pid, session: SessionId, product: ProductId, quantity: int)
      returns (answer: Answer, present: bool)
      requires Valid() && IsFair(catalogue, outside) && pid in processes
      requires processes[pid] == AddLooking(session, product, quantity)
      modifies this
      ensures answer == Failed ==> Continues(pid, Done(session, Failed, false))
      ensures answer != Failed ==>
                Continues(pid, if present then AddUpdating(session, product, quantity)
                               else AddInserting(session, product, quantity))
    {
      var ok := Await(outside, pid);
      if !ok { return Failed, false; }
      present := CartKey(session, product) in cart;
      Proceed(Contents(), pid,
              if present then AddUpdating(session, product, quantity) else AddInserting(session, product, quantity),
              [], 0.0, 0);
      answer := Okay;
    }

    method AddCartItem(outside: Outside, pid: Pid, session: SessionId, product: ProductId, quantity: int, present: bool)
      returns (answer: Answer, written: bool)
      requires Valid() && IsFair(catalogue, outside) && pid in processes
      requires processes[pid] == if present then AddUpdating(session, product, quantity)
                                 else AddInserting(session, product, quantity)
      modifies this
      ensures Continues(pid, if written then Rereading(session) else Done(session, answer, false))
      ensures written <==> answer == Okay
    {
      var ok := Await(outside, pid);
      if !ok { return Failed, false; }
      ghost var before := Contents();
      if present {
        written := AddQuantity(CartKey(session, product), quantity);
      } else {
        written := InsertCartItem(CartKey(session, product), quantity);
      }
      Proceed(before, pid, if written then Rereading(session) else Done(session, Failed, false), [], 0.0, 0);
      answer := if written then Okay else Failed;
    }

    /** Check, then update or insert: two statements, with others in between. */
    method UpsertCartItem(outside: Outside, pid: Pid, session: SessionId, product: ProductId, quantity: int)
      returns (answer: Answer, written: bool)
      requires Valid() && IsFair(catalogue, outside) && pid in processes
      requires processes[pid] == AddLooking(session, product, quantity)
      modifies this
      ensures Continues(pid, if written then Rereading(session) else Done(session, answer, false))
      ensures written <==> answer == Okay
    {
      hide IsFair, IsRun, After, Statement, Possible, Enabled, Apply;
      var present;
      answer, present := SelectCartItem(outside, pid, session, product, quantity);
      if answer == Failed { return answer, false; }
      answer, written := AddCartItem(outside, pid, session, product, quantity, present);
    }

    /** The SELECT with which POST, PUT and DELETE of a cart item answer. */
    method ReturnCart(outside: Outside, pid: Pid, session: SessionId) returns (answer: Answer, rows: seq<CartRow>)
      requires Valid() && IsFair(catalogue, outside) && pid in processes && processes[pid] == Rereading(session)
      modifies this
      ensures Continues(pid, Done(session, answer, true))
      ensures answer == Okay ==> Lists(catalogue, cart, session, rows)
    {
      var ok := Await(outside, pid);
      if !ok { return Failed, []; }
      rows := outside.list(log, session);
      Proceed(Contents(), pid, Done(session, Okay, true), rows, 0.0, 0);
      return Okay, rows;
    }

    /** POST /api/cart */
    method PostCart(outside: Outside, session: SessionId, product: ProductId, quantity: int)
      returns (pid: Pid, answer: Answer, rows: seq<CartRow>)
      requires Valid() && IsFair(catalogue, outside)
      modifies this
      ensures Answered(pid, Add(session, product, quantity), answer)
      ensures answer == Okay ==> Lists(catalogue, cart, session, rows)
    {
      hide IsFair, IsRun, After, Statement, Possible, Enabled, Apply, Lists;
      rows := [];
      pid := Begin(Add(session, product, quantity));
      var known, written;
      answer, known := SelectProduct(outside, pid, session, product, quantity);
      if !known { return; }
      answer, written := UpsertCartItem(outside, pid, session, product, quantity);
      if !written { return; }
      answer, rows := ReturnCart(outside, pid, session);
    }

    /** GET /api/cart */
    method GetCart(outside: Outside, session: SessionId) returns (pid: Pid, answer: Answer, rows: seq<CartRow>)
      requires Valid() && IsFair(catalogue, outside)
      modifies this
      ensures Answered(pid, Show(session), answer) && answer != Created
      ensures answer == Okay ==> Lists(catalogue, cart, session, rows) && log[|log| - 1] == Execute(pid, rows, 0.0, 0)
    {
      pid := Begin(Show(session));
      var ok := Await(outside, pid);
      if !ok { return pid, Failed, []; }
      rows := outside.list(log, session);
      Proceed(Contents(), pid, Done(session, Okay, false), rows, 0.0, 0);
      return pid, Okay, rows;
    }

    method SetCartItem(outside: Outside, pid: Pid, session: SessionId, product: ProductId, quantity: int)
      returns (answer: Answer, written: bool)
      requires Valid() && IsFair(catalogue, outside) && pid in processes
      requires processes[pid] == Setting(session, product, quantity)
      modifies this
      ensures Continues(pid, if written then Rereading(session) else Done(session, answer, false))
      ensures written <==> answer == Okay
    {
      var ok := Await(outside, pid);
      if !ok { return Failed, false; }
      ghost var before := Contents();
      written := true;
      if quantity <= 0 {
        cart := cart - {CartKey(session, product)};
      } else {
        written := SetQuantity(CartKey(session, product), quantity);
      }
      Proceed(before, pid, if written then Rereading(session) else Done(session, Failed, false), [], 0.0, 0);
      answer := if written then Okay else Failed;
    }

    /** PUT /api/cart/:id */
    method PutCartItem(outside: Outside, session: SessionId, product: ProductId, quantity: int)
      returns (pid: Pid, answer: Answer, rows: seq<CartRow>)
      requires Valid() && IsFair(catalogue, outside)
      modifies this
      ensures Answered(pid, Update(session, product, quantity), answer)
      ensures answer == Okay ==> Lists(catalogue, cart, session, rows)
    {
      hide IsFair, IsRun, After, Statement, Possible, Enabled, Apply, Lists;
      rows := [];
      pid := Begin(Update(session, product, quantity));
      var written;
      answer, written := SetCartItem(outside, pid, session, product, quantity);
      if !written { return; }
      answer, rows := ReturnCart(outside, pid, session);
    }

    method RemoveCartItem(outside: Outside, pid: Pid, session: SessionId, product: ProductId) returns (answer: Answer)
      requires Valid() && IsFair(catalogue, outside) && pid in processes && processes[pid] == Removing(session, product)
      modifies this
      ensures answer == Okay || answer == Failed
      ensures Continues(pid, if answer == Okay then Rereading(session) else Done(session, Failed, false))
    {
      var ok := Await(outside, pid);
      if !ok { return Failed; }
      ghost var before := Contents();
      cart := cart - {CartKey(session, product)};
      Proceed(before, pid, Rereading(session), [], 0.0, 0);
      return Okay;
    }

    /** DELETE /api/cart/:id */
    method DeleteCartItem(outside: Outside, session: SessionId, product: ProductId)
      returns (pid: Pid, answer: Answer, rows: seq<CartRow>)
      requires Valid() && IsFair(catalogue, outside)
      modifies this
      ensures Answered(pid, Remove(session, product), answer)
      ensures answer == Okay ==> Lists(catalogue, cart, session, rows)
    {
      hide IsFair, IsRun, After, Statement, Possible, Enabled, Apply, Lists;
      rows := [];
      pid := Begin(Remove(session, product));
      answer := RemoveCartItem(outside, pid, session, product);
      if answer == Failed { return; }
      answer, rows := ReturnCart(outside, pid, session);
    }

    /** DELETE /api/cart */
    method DeleteCart(outside: Outside, session: SessionId) returns (pid: Pid, answer: Answer)
      requires Valid() && IsFair(catalogue, outside)
      modifies this
      ensures Answered(pid, Clear(session), answer)
    {
      pid := Begin(Clear(session));
      var ok := Await(outside, pid);
      if !ok { return pid, Failed; }
      ghost var before := Contents();
      cart := WithoutSession(cart, session);
      Proceed(before, pid, Done(session, Okay, true), [], 0.0, 0);
      return pid, Okay;
    }

    // ----- POST /api/orders

    method ReadCart(outside: Outside, pid: Pid, session: SessionId)
      returns (answer: Answer, rows: seq<CartRow>, total: real)
      requires Valid() && IsFair(catalogue, outside) && pid in processes && processes[pid] == CartReading(session)
      modifies this
      ensures answer == Okay || answer == CartEmpty || answer == Failed
      ensures Continues(pid, if answer == Okay then Counting(session, rows, total) else Done(session, answer, false))
    {
      rows, total := [], 0.0;
      var ok := Await(outside, pid);
      if !ok { return Failed, rows, total; }
      rows := outside.list(log, session);
      total := SumUp(outside, rows);
      answer := if rows == [] then CartEmpty else Okay;
      Proceed(Contents(), pid, if rows == [] then Done(session, CartEmpty, false) else Counting(session, rows, total),
              rows, total, 0);
    }

    /** SELECT COUNT(*) + 1; the count is returned. */
    method CountOrders(outside: Outside, pid: Pid, session: SessionId, rows: seq<CartRow>, total: real)
      returns (ok: bool, count: nat)
      requires Valid() && IsFair(catalogue, outside) && pid in processes
      requires processes[pid] == Counting(session, rows, total)
      modifies this
      ensures Continues(pid, if ok then OrderInserting(session, rows, total, count) else Done(session, Failed, false))
    {
      ok := Await(outside, pid);
      if !ok { return false, 0; }
      count := |orders|;
      Proceed(Contents(), pid, OrderInserting(session, rows, total, count), [], 0.0, 0);
    }

    method CreateOrder(outside: Outside, pid: Pid, session: SessionId, rows: seq<CartRow>, total: real, count: nat)
      returns (ok: bool, id: OrderId)
      requires Valid() && IsFair(catalogue, outside) && pid in processes
      requires processes[pid] == OrderInserting(session, rows, total, count)
      modifies this
      ensures Continues(pid, if ok then AfterItem(session, rows, id, 0) else Done(session, Failed, false))
    {
      id := Decimal.OrderId(count + 1);
      ok := Await(outside, pid);
      if !ok { return; }
      var cents := Store(outside, total);
      ghost var before := Contents();
      ok := InsertOrder(id, cents);
      Proceed(before, pid, if ok then AfterItem(session, rows, id, 0) else Done(session, Failed, false),
              [], 0.0, cents);
    }

    method CreateItem(outside: Outside, pid: Pid, session: SessionId, rows: seq<CartRow>, id: OrderId, k: nat)
      returns (ok: bool)
      requires Valid() && IsFair(catalogue, outside) && pid in processes && k < |rows|
      requires processes[pid] == ItemInserting(session, rows, id, k)
      modifies this
      ensures Continues(pid, if ok then AfterItem(session, rows, id, k + 1) else Done(session, Failed, true))
    {
      var subtotal := Multiply(outside, rows[k]);
      ok := Await(outside, pid);
      if !ok { return; }
      var cents := Store(outside, subtotal);
      ghost var before := Contents();
      ok := InsertOrderItem(OrderItem(id, rows[k], cents));
      Proceed(before, pid, if ok then AfterItem(session, rows, id, k + 1) else Done(session, Failed, true),
              [], subtotal, cents);
    }

    method CreateItems(outside: Outside, pid: Pid, session: SessionId, rows: seq<CartRow>, id: OrderId)
      returns (ok: bool)
      requires Valid() && IsFair(catalogue, outside) && pid in processes
      requires processes[pid] == AfterItem(session, rows, id, 0)
      modifies this
      ensures Continues(pid, if ok then CartClearing(session, rows, id) else Done(session, Failed, true))
    {
      hide IsFair, IsRun, After, Statement, Possible;
      for k := 0 to |rows|
        invariant Continues(pid, AfterItem(session, rows, id, k))
      {
        ok := CreateItem(outside, pid, session, rows, id, k);
        if !ok { return; }
      }
      return true;
    }

    method ClearCart(outside: Outside, pid: Pid, session: SessionId, rows: seq<CartRow>, id: OrderId) returns (ok: bool)
      requires Valid() && IsFair(catalogue, outside) && pid in processes
      requires processes[pid] == CartClearing(session, rows, id)
      modifies this
      ensures Continues(pid, if ok then OrderReading(session, rows, id) else Done(session, Failed, true))
    {
      ok := Await(outside, pid);
      if !ok { return; }
      ghost var before := Contents();
      cart := WithoutSession(cart, session);
      Proceed(before, pid, OrderReading(session, rows, id), [], 0.0, 0);
    }

    /** What the answer to a checkout says about the order it has made from the rows it had read. */
    ghost predicate IsWholeOrder(session: SessionId, rows: seq<CartRow>, id: OrderId, total: int, found: seq<ItemRow>)
      reads this
    {
      && rows != [] && WasCart(catalogue, log, session, rows)
      && id in orders && total == orders[id] && found == ItemsOf(items, id)
      && |found| == |rows| && IsPrefixFor(found, id, rows)
      && (forall i :: 0 <= i < |rows| ==>
            && found[i].product == rows[i].product && found[i].quantity == rows[i].quantity
            && IsCatalogued(catalogue, found[i].product, found[i].name, found[i].price))
      && (Exact(rows) ==> total == SubtotalSum(found) == Money.ExactTotal(LinesOf(rows)))
    }

    method ReadItems(outside: Outside, pid: Pid, session: SessionId, rows: seq<CartRow>, id: OrderId, total: int)
      returns (answer: Answer, found: seq<ItemRow>)
      requires Valid() && IsFair(catalogue, outside) && pid in processes
      requires processes[pid] == ItemsReading(session, rows, id)
      requires id in orders && orders[id] == total
      modifies this
      ensures answer == Created || answer == Failed
      ensures Continues(pid, Done(session, answer, true))
      ensures answer == Created ==> IsWholeOrder(session, rows, id, total, found)
    {
      ghost var before := log;
      var ok := Await(outside, pid);
      if !ok { return Failed, []; }
      assert log[..|before|] == before;
      OrdersOnlyGrow(catalogue, log, |before|);
      OrderReadBack(catalogue, log, pid);
      found := ItemsOf(items, id);
      WasCartForLonger(catalogue, log, Execute(pid, [], 0.0, 0), session, rows);
      Proceed(Contents(), pid, Done(session, Created, true), [], 0.0, 0);
      return Created, found;
    }

    /** The two SELECTs of the answer. The first always finds the order. */
    method ReadOrder(outside: Outside, pid: Pid, session: SessionId, rows: seq<CartRow>, id: OrderId)
      returns (answer: Answer, total: int, found: seq<ItemRow>)
      requires Valid() && IsFair(catalogue, outside) && pid in processes
      requires processes[pid] == OrderReading(session, rows, id)
      modifies this
      ensures answer == Created || answer == Failed
      ensures Continues(pid, Done(session, answer, true))
      ensures answer == Created ==> IsWholeOrder(session, rows, id, total, found)
    {
      total, found := 0, [];
      var ok := Await(outside, pid);
      if !ok { return Failed, total, found; }
      RereadSeesTheWholeOrder(catalogue, log, pid);
      total := orders[id];
      Proceed(Contents(), pid, ItemsReading(session, rows, id), [], 0.0, 0);
      answer, found := ReadItems(outside, pid, session, rows, id, total);
    }

    /** The first half: the cart, its total, the count, the order's row. */
    method PlaceOrder(outside: Outside, pid: Pid, session: SessionId)
      returns (answer: Answer, rows: seq<CartRow>, id: OrderId)
      requires Valid() && IsFair(catalogue, outside) && pid in processes && processes[pid] == CartReading(session)
      modifies this
      ensures answer == Okay || answer == CartEmpty || answer == Failed
      ensures Continues(pid, if answer == Okay then AfterItem(session, rows, id, 0) else Done(session, answer, false))
    {
      hide IsFair, IsRun, After, Statement, Possible, Enabled, Apply;
      id := "";
      var total, count, ok;
      answer, rows, total := ReadCart(outside, pid, session);
      if answer != Okay { return; }
      ok, count := CountOrders(outside, pid, session, rows, total);
      if !ok { return Failed, rows, id; }
      ok, id := CreateOrder(outside, pid, session, rows, total, count);
      if !ok { return Failed, rows, id; }
    }

    /** The second half: the item rows, the cart, the answer. */
    method FillOrder(outside: Outside, pid: Pid, session: SessionId, rows: seq<CartRow>, id: OrderId)
      returns (answer: Answer, total: int, found: seq<ItemRow>)
      requires Valid() && IsFair(catalogue, outside) && pid in processes
      requires processes[pid] == AfterItem(session, rows, id, 0)
      modifies this
      ensures answer == Created || answer == Failed
      ensures Continues(pid, Done(session, answer, true))
      ensures answer == Created ==> IsWholeOrder(session, rows, id, total, found)
    {
      hide IsFair, IsRun, After, Statement, Possible, Enabled, Apply, IsPrefixFor, Exact;
      total, found := 0, [];
      var ok := CreateItems(outside, pid, session, rows, id);
      if !ok { return Failed, total, found; }
      ok := ClearCart(outside, pid, session, rows, id);
      if !ok { return Failed, total, found; }
      answer, total, found := ReadOrder(outside, pid, session, rows, id);
    }

    /** POST /api/orders: an answered order is whole, and its total is exact. */
    method PostOrder(outside: Outside, session: SessionId)
      returns (pid: Pid, answer: Answer, rows: seq<CartRow>, id: OrderId, total: int, found: seq<ItemRow>)
      requires Valid() && IsFair(catalogue, outside)
      modifies this
      ensures Answered(pid, Checkout(session), answer) && answer != Okay
      ensures answer == Created ==> IsWholeOrder(session, rows, id, total, found)
    {
      hide IsFair, IsRun, After, Statement, Possible, Enabled, Apply, IsPrefixFor, Exact;
      total, found := 0, [];
      pid := Begin(Checkout(session));
      answer, rows, id := PlaceOrder(outside, pid, session);
      if answer != Okay { return; }
      answer, total, found := FillOrder(outside, pid, session, rows, id);
    }
  }
}
