/**
 An order belongs to the one checkout that inserted it. Although checkouts interleave and write one item row at a
 time, the item rows under an id are always a prefix of the cart snapshot its creator read; when the creator
 reads its order back they are the whole snapshot, and their subtotals add up to the stored total.
 (server/src/server.js:359-430)
 */
module OrderOwnership {
  import opened Tables
  import opened ShopMachine
  import Decimal
  import Money

  /** Who inserted an order: the process, its session, the cart rows it had read and the double it had added up. */
  datatype Creation = Creation(pid: Pid, session: SessionId, rows: seq<CartRow>, total: real)

  /** Does this event insert an order? Then its id is the second component. */
  function Inserted(s: State, e: Event): (bool, OrderId) {
    if e.Execute? && e.pid in s.processes && s.processes[e.pid].OrderInserting? then
      var id := Decimal.OrderId(s.processes[e.pid].count + 1);
      (InsertOrder(s.db, id, e.cents).Accepted?, id)
    else (false, "")
  }

  function NextCreations(s: State, e: Event, created: map<OrderId, Creation>): map<OrderId, Creation> {
    var (inserts, id) := Inserted(s, e);
    if inserts then
      var p := s.processes[e.pid];
      created[id := Creation(e.pid, p.session, p.rows, p.total)]
    else created
  }

  function Creations(catalogue: Catalogue, es: seq<Event>): map<OrderId, Creation> {
    if es == [] then map[]
    else
      var before := es[..|es| - 1];
      NextCreations(After(catalogue, before), es[|es| - 1], Creations(catalogue, before))
  }

  /** An item row that the checkout loop may have written for a cart row. */
  ghost predicate IsItemFor(item: ItemRow, id: OrderId, row: CartRow) {
    && item.order == id && item.product == row.product && item.name == row.name
    && item.price == row.price && item.quantity == row.quantity
    && Money.Fits(item.subtotal)
    && exists amount: real :: Money.Product(LineOf(row), amount) && Money.Stored(amount, item.subtotal)
  }

  ghost predicate IsPrefixFor(items: seq<ItemRow>, id: OrderId, rows: seq<CartRow>) {
    |items| <= |rows| && forall i :: 0 <= i < |items| ==> IsItemFor(items[i], id, rows[i])
  }

  predicate HasOrder(p: Process) {
    p.ItemInserting? || p.CartClearing? || p.OrderReading? || p.ItemsReading?
  }

  /** How many item rows a checkout that holds an order has written. */
  function RowsWritten(p: Process): nat
    requires HasOrder(p)
  {
    if p.ItemInserting? then p.next else |p.rows|
  }

  ghost predicate OrderOwned(db: Db, id: OrderId, creation: Creation) {
    && id in db.orders && Money.Fits(db.orders[id])
    && Money.Accumulates(LinesOf(creation.rows), creation.total) && Money.Stored(creation.total, db.orders[id])
    && IsPrefixFor(ItemsOf(db.items, id), id, creation.rows)
  }

  ghost predicate ProcessOwns(db: Db, created: map<OrderId, Creation>, pid: Pid, p: Process) {
    && (p.Counting? || p.OrderInserting? ==> Money.Accumulates(LinesOf(p.rows), p.total) && p.rows != [])
    && (HasOrder(p) ==>
          && p.rows != [] && p.id in created && created[p.id].pid == pid
          && created[p.id].session == p.session && created[p.id].rows == p.rows
          && |ItemsOf(db.items, p.id)| == RowsWritten(p)
          && (p.ItemInserting? ==> p.next < |p.rows|))
  }

  ghost predicate OrdersOwned(db: Db, created: map<OrderId, Creation>) {
    && created.Keys == db.orders.Keys
    && (forall i :: 0 <= i < |db.items| ==> db.items[i].order in db.orders)
    && forall id :: id in created ==> OrderOwned(db, id, created[id])
  }

  ghost predicate ProcessesOwn(db: Db, created: map<OrderId, Creation>, processes: map<Pid, Process>) {
    && (forall id :: id in created ==> created[id].pid in processes)
    && forall pid :: pid in processes ==> ProcessOwns(db, created, pid, processes[pid])
  }

  ghost predicate Owned(s: State, created: map<OrderId, Creation>) {
    OrdersOwned(s.db, created) && ProcessesOwn(s.db, created, s.processes)
  }

  lemma AppendItem(items: seq<ItemRow>, row: ItemRow, id: OrderId)
    ensures ItemsOf(items + [row], id) == ItemsOf(items, id) + if row.order == id then [row] else []
  {
    assert (items + [row])[..|items|] == items;
  }

  lemma {:induction false} NoItemsYet(items: seq<ItemRow>, id: OrderId)
    requires forall i :: 0 <= i < |items| ==> items[i].order != id
    ensures ItemsOf(items, id) == []
  {
    if items != [] {
      NoItemsYet(items[..|items| - 1], id);
    }
  }

  /** The orders after an accepted order INSERT. */
  lemma OrderAdded(db: Db, created: map<OrderId, Creation>, id: OrderId, cents: int, creation: Creation)
    requires OrdersOwned(db, created)
    requires id !in db.orders && Money.Fits(cents)
    requires Money.Accumulates(LinesOf(creation.rows), creation.total) && Money.Stored(creation.total, cents)
    ensures OrdersOwned(db.(orders := db.orders[id := cents]), created[id := creation])
    ensures ItemsOf(db.items, id) == []
  {
    NoItemsYet(db.items, id);
  }

  /** What a process holds on to survives any change to other orders. */
  lemma OtherProcessOwns(db: Db, created: map<OrderId, Creation>, db': Db, created': map<OrderId, Creation>, pid: Pid,
                         p: Process)
    requires ProcessOwns(db, created, pid, p)
    requires HasOrder(p) ==> p.id in created' && created'[p.id] == created[p.id]
    requires HasOrder(p) ==> |ItemsOf(db'.items, p.id)| == |ItemsOf(db.items, p.id)|
    ensures ProcessOwns(db', created', pid, p)
  {}

  /** The processes after one of them has moved to p and at most its own order has changed. */
  lemma OneProcessMoves(db: Db, created: map<OrderId, Creation>, db': Db, created': map<OrderId, Creation>,
                        processes: map<Pid, Process>, pid: Pid, p: Process, id: OrderId)
    requires ProcessesOwn(db, created, processes) && pid in processes
    requires forall x :: x in created && x != id ==>
               x in created' && created'[x] == created[x] && |ItemsOf(db'.items, x)| == |ItemsOf(db.items, x)|
    requires created'.Keys <= created.Keys + {id}
    requires id in created ==> created[id].pid == pid
    requires id in created' ==> created'[id].pid == pid
    requires ProcessOwns(db', created', pid, p)
    ensures ProcessesOwn(db', created', processes[pid := p])
  {
    forall q | q in processes && q != pid ensures ProcessOwns(db', created', q, processes[q]) {
      assert ProcessOwns(db, created, q, processes[q]);
      OtherProcessOwns(db, created, db', created', q, processes[q]);
    }
  }

  lemma OwnedWithOrder(s: State, created: map<OrderId, Creation>, pid: Pid, id: OrderId, cents: int, creation: Creation)
    requires Owned(s, created) && pid in s.processes && s.processes[pid].OrderInserting?
    requires id !in s.db.orders && Money.Fits(cents)
    requires var p := s.processes[pid];
             creation == Creation(pid, p.session, p.rows, p.total) && Money.Stored(p.total, cents)
    ensures var p := s.processes[pid];
            Owned(State(s.db.(orders := s.db.orders[id := cents]),
                        s.processes[pid := AfterItem(p.session, p.rows, id, 0)]),
                  created[id := creation])
  {
    var p := s.processes[pid];
    assert ProcessOwns(s.db, created, pid, p);
    OrderAdded(s.db, created, id, cents, creation);
    OneProcessMoves(s.db, created, s.db.(orders := s.db.orders[id := cents]), created[id := creation],
                    s.processes, pid, AfterItem(p.session, p.rows, id, 0), id);
  }

  /** A process that stops or moves on without a write disturbs no order. */
  lemma OwnedWithProcess(s: State, created: map<OrderId, Creation>, pid: Pid, p: Process)
    requires Owned(s, created) && ProcessOwns(s.db, created, pid, p)
    ensures Owned(s.(processes := s.processes[pid := p]), created)
  {}

  lemma OrderInsertApplied(catalogue: Catalogue, s: State, e: Event, created: map<OrderId, Creation>)
    requires e.Execute? && e.pid in s.processes && s.processes[e.pid].OrderInserting?
    ensures var p := s.processes[e.pid];
            var id := Decimal.OrderId(p.count + 1);
            if id in s.db.orders || |id| > 50 || !Money.Fits(e.cents) then
              && Apply(catalogue, s, e) == s.(processes := s.processes[e.pid := Done(p.session, Failed, false)])
              && NextCreations(s, e, created) == created
            else
              && Apply(catalogue, s, e) == State(s.db.(orders := s.db.orders[id := e.cents]),
                                                 s.processes[e.pid := AfterItem(p.session, p.rows, id, 0)])
              && NextCreations(s, e, created) == created[id := Creation(e.pid, p.session, p.rows, p.total)]
  {
    hide Decimal.OrderId;
  }

  lemma InsertingOrderKeepsOwnership(catalogue: Catalogue, s: State, e: Event, created: map<OrderId, Creation>)
    requires Owned(s, created) && Enabled(catalogue, s, e)
    requires e.Execute? && s.processes[e.pid].OrderInserting?
    ensures Owned(Apply(catalogue, s, e), NextCreations(s, e, created))
  {
    hide Owned, OrdersOwned, Apply, NextCreations, Money.Stored, Decimal.OrderId;
    var p := s.processes[e.pid];
    var id := Decimal.OrderId(p.count + 1);
    assert Money.Stored(p.total, e.cents);
    assert ProcessOwns(s.db, created, e.pid, Done(p.session, Failed, false));
    hide ProcessOwns, Enabled, Possible;
    OrderInsertApplied(catalogue, s, e, created);
    if id in s.db.orders || |id| > 50 || !Money.Fits(e.cents) {
      OwnedWithProcess(s, created, e.pid, Done(p.session, Failed, false));
    } else {
      OwnedWithOrder(s, created, e.pid, id, e.cents, Creation(e.pid, p.session, p.rows, p.total));
    }
  }

  lemma OneOrderWithItem(db: Db, id: OrderId, creation: Creation, row: ItemRow)
    requires OrderOwned(db, id, creation)
    requires var k := |ItemsOf(db.items, id)|;
             row.order == id ==> k < |creation.rows| && IsItemFor(row, id, creation.rows[k])
    ensures OrderOwned(db.(items := db.items + [row]), id, creation)
  {
    hide ItemsOf, IsItemFor, Money.Accumulates, Money.Stored;
    AppendItem(db.items, row, id);
  }

  /** The orders after an accepted item INSERT. */
  lemma ItemAdded(db: Db, created: map<OrderId, Creation>, row: ItemRow)
    requires OrdersOwned(db, created) && row.order in created
    requires var k := |ItemsOf(db.items, row.order)|; var rows := created[row.order].rows;
             k < |rows| && IsItemFor(row, row.order, rows[k])
    ensures OrdersOwned(db.(items := db.items + [row]), created)
  {
    var after := db.(items := db.items + [row]);
    hide OrderOwned, IsItemFor;
    forall x | x in created ensures OrderOwned(after, x, created[x]) {
      assert OrderOwned(db, x, created[x]);
      OneOrderWithItem(db, x, created[x], row);
    }
  }

  lemma OwnedWithItem(s: State, created: map<OrderId, Creation>, pid: Pid, row: ItemRow)
    requires Owned(s, created) && pid in s.processes && s.processes[pid].ItemInserting?
    requires var p := s.processes[pid]; p.next < |p.rows| && row.order == p.id && IsItemFor(row, p.id, p.rows[p.next])
    ensures var p := s.processes[pid];
            Owned(State(s.db.(items := s.db.items + [row]),
                        s.processes[pid := AfterItem(p.session, p.rows, p.id, p.next + 1)]),
                  created)
  {
    var p := s.processes[pid];
    assert ProcessOwns(s.db, created, pid, p);
    ItemAdded(s.db, created, row);
    forall x ensures |ItemsOf(s.db.items + [row], x)| == |ItemsOf(s.db.items, x)| + if x == row.order then 1 else 0 {
      AppendItem(s.db.items, row, x);
    }
    OneProcessMoves(s.db, created, s.db.(items := s.db.items + [row]), created,
                    s.processes, pid, AfterItem(p.session, p.rows, p.id, p.next + 1), p.id);
  }

  lemma InsertingItemKeepsOwnership(catalogue: Catalogue, s: State, e: Event, created: map<OrderId, Creation>)
    requires Owned(s, created) && Enabled(catalogue, s, e)
    requires e.Execute? && s.processes[e.pid].ItemInserting?
    ensures Owned(Apply(catalogue, s, e), NextCreations(s, e, created))
  {
    var p := s.processes[e.pid];
    var row := OrderItem(p.id, p.rows[p.next], e.cents);
    if InsertOrderItem(catalogue, s.db, row).Accepted? {
      assert IsItemFor(row, p.id, p.rows[p.next]);
      OwnedWithItem(s, created, e.pid, row);
    } else {
      OwnedWithProcess(s, created, e.pid, Done(p.session, Failed, true));
    }
  }

  lemma ReadingKeepsProcessOwns(catalogue: Catalogue, db: Db, created: map<OrderId, Creation>, pid: Pid, p: Process,
                                e: Event)
    requires e.Execute? && ProcessOwns(db, created, pid, p) && !p.OrderInserting? && !p.ItemInserting?
    requires Possible(catalogue, db, p, e.rows, e.amount, e.cents)
    ensures ProcessOwns(db, created, pid, Statement(catalogue, db, p, e.rows, e.amount, e.cents).1)
  {
    hide Money.Accumulates, Lists, ItemsOf, LinesOf, WithoutSession;
  }

  lemma OwnedWithCart(s: State, created: map<OrderId, Creation>, cart: Cart)
    requires Owned(s, created)
    ensures Owned(s.(db := s.db.(cart := cart)), created)
  {
    var db := s.db.(cart := cart);
    forall id | id in created ensures OrderOwned(db, id, created[id]) {
      assert OrderOwned(s.db, id, created[id]);
    }
    forall pid | pid in s.processes ensures ProcessOwns(db, created, pid, s.processes[pid]) {
      assert ProcessOwns(s.db, created, pid, s.processes[pid]);
    }
  }

  lemma OtherStepsKeepOwnership(catalogue: Catalogue, s: State, e: Event, created: map<OrderId, Creation>)
    requires Owned(s, created) && Enabled(catalogue, s, e)
    requires e.Execute? ==> !s.processes[e.pid].OrderInserting? && !s.processes[e.pid].ItemInserting?
    ensures Owned(Apply(catalogue, s, e), NextCreations(s, e, created))
  {
    if e.Execute? {
      var p := s.processes[e.pid];
      var (db, p') := Statement(catalogue, s.db, p, e.rows, e.amount, e.cents);
      StatementFrame(catalogue, s.db, p, e.rows, e.amount, e.cents);
      ReadingKeepsProcessOwns(catalogue, s.db, created, e.pid, p, e);
      OwnedWithProcess(s, created, e.pid, p');
      OwnedWithCart(s.(processes := s.processes[e.pid := p']), created, db.cart);
      assert db == s.db.(cart := db.cart);
    } else {
      OwnedWithProcess(s, created, e.pid, Apply(catalogue, s, e).processes[e.pid]);
    }
  }

  /** In every reachable state every order's item rows are a prefix of its creator's cart snapshot. */
  lemma {:induction false} OrdersAreOwned(catalogue: Catalogue, es: seq<Event>)
    requires IsRun(catalogue, es)
    ensures Owned(After(catalogue, es), Creations(catalogue, es))
  {
    if es != [] {
      var before, e := es[..|es| - 1], es[|es| - 1];
      OrdersAreOwned(catalogue, before);
      var s, created := After(catalogue, before), Creations(catalogue, before);
      if e.Execute? && s.processes[e.pid].OrderInserting? {
        InsertingOrderKeepsOwnership(catalogue, s, e, created);
      } else if e.Execute? && s.processes[e.pid].ItemInserting? {
        InsertingItemKeepsOwnership(catalogue, s, e, created);
      } else {
        OtherStepsKeepOwnership(catalogue, s, e, created);
      }
    }
  }

  // ----- a snapshot is one SELECT's view of the session's cart

  predicate HasSnapshot(p: Process) {
    p.Counting? || p.OrderInserting? || HasOrder(p)
  }

  /** rows lists the session's cart as it was after some number of the events. */
  ghost predicate WasCart(catalogue: Catalogue, es: seq<Event>, session: SessionId, rows: seq<CartRow>) {
    exists n :: 0 <= n <= |es| && Lists(catalogue, After(catalogue, es[..n]).db.cart, session, rows)
  }

  lemma WasCartForLonger(catalogue: Catalogue, es: seq<Event>, e: Event, session: SessionId, rows: seq<CartRow>)
    requires WasCart(catalogue, es, session, rows)
    ensures WasCart(catalogue, es + [e], session, rows)
  {
    var n :| 0 <= n <= |es| && Lists(catalogue, After(catalogue, es[..n]).db.cart, session, rows);
    assert (es + [e])[..n] == es[..n];
  }

  lemma StatementSnapshot(catalogue: Catalogue, db: Db, p: Process, e: Event)
    requires e.Execute?
    ensures var p' := Statement(catalogue, db, p, e.rows, e.amount, e.cents).1;
            HasSnapshot(p') ==> if p.CartReading? then p'.rows == e.rows else HasSnapshot(p) && p'.rows == p.rows
  {}

  ghost predicate ProcessSnapshots(catalogue: Catalogue, es: seq<Event>, processes: map<Pid, Process>) {
    forall pid :: pid in processes && HasSnapshot(processes[pid]) ==>
      WasCart(catalogue, es, processes[pid].session, processes[pid].rows)
  }

  ghost predicate OrderSnapshots(catalogue: Catalogue, es: seq<Event>, created: map<OrderId, Creation>) {
    forall id :: id in created ==> WasCart(catalogue, es, created[id].session, created[id].rows)
  }

  lemma NextSnapshot(catalogue: Catalogue, before: seq<Event>, p: Process, e: Event)
    requires HasSnapshot(p) ==> WasCart(catalogue, before, p.session, p.rows)
    requires e.Execute? && Possible(catalogue, After(catalogue, before).db, p, e.rows, e.amount, e.cents)
    ensures var p' := Statement(catalogue, After(catalogue, before).db, p, e.rows, e.amount, e.cents).1;
            HasSnapshot(p') ==> WasCart(catalogue, before, p'.session, p'.rows)
  {
    var db := After(catalogue, before).db;
    StatementSnapshot(catalogue, db, p, e);
    StatementFrame(catalogue, db, p, e.rows, e.amount, e.cents);
    if p.CartReading? {
      assert before[..|before|] == before;
      assert WasCart(catalogue, before, p.session, e.rows);
    }
  }

  /** One more event keeps every snapshot, and a checkout's SELECT takes a new one. */
  lemma NextProcessSnapshots(catalogue: Catalogue, before: seq<Event>, e: Event)
    requires Enabled(catalogue, After(catalogue, before), e)
    requires ProcessSnapshots(catalogue, before, After(catalogue, before).processes)
    ensures ProcessSnapshots(catalogue, before + [e], Apply(catalogue, After(catalogue, before), e).processes)
  {
    var s := After(catalogue, before);
    var processes := Apply(catalogue, s, e).processes;
    hide WasCart, Lists, Money.Accumulates, Money.Stored, Money.Product;
    forall pid | pid in processes && HasSnapshot(processes[pid])
      ensures WasCart(catalogue, before + [e], processes[pid].session, processes[pid].rows)
    {
      if pid == e.pid {
        if e.Execute? {
          NextSnapshot(catalogue, before, s.processes[pid], e);
        } else {
          assert false;
        }
      } else {
        assert processes[pid] == s.processes[pid];
      }
      WasCartForLonger(catalogue, before, e, processes[pid].session, processes[pid].rows);
    }
  }

  lemma NextOrderSnapshots(catalogue: Catalogue, before: seq<Event>, e: Event, created: map<OrderId, Creation>)
    requires ProcessSnapshots(catalogue, before, After(catalogue, before).processes)
    requires OrderSnapshots(catalogue, before, created)
    ensures OrderSnapshots(catalogue, before + [e], NextCreations(After(catalogue, before), e, created))
  {
    var created' := NextCreations(After(catalogue, before), e, created);
    forall id | id in created' ensures WasCart(catalogue, before + [e], created'[id].session, created'[id].rows) {
      WasCartForLonger(catalogue, before, e, created'[id].session, created'[id].rows);
    }
  }

  /** The rows behind every order are what its creator's one SELECT found in its own session's cart. */
  lemma {:induction false} SnapshotsWereCarts(catalogue: Catalogue, es: seq<Event>)
    requires IsRun(catalogue, es)
    ensures ProcessSnapshots(catalogue, es, After(catalogue, es).processes)
    ensures OrderSnapshots(catalogue, es, Creations(catalogue, es))
  {
    if es != [] {
      var before, e := es[..|es| - 1], es[|es| - 1];
      SnapshotsWereCarts(catalogue, before);
      NextProcessSnapshots(catalogue, before, e);
      NextOrderSnapshots(catalogue, before, e, Creations(catalogue, before));
      assert es == before + [e];
    }
  }

  // ----- what an item row says of its product is what the catalogue says

  predicate IsCatalogued(catalogue: Catalogue, product: ProductId, name: string, price: nat) {
    product in catalogue && name == catalogue[product].name && price == catalogue[product].price
  }

  ghost predicate RowsCatalogued(catalogue: Catalogue, rows: seq<CartRow>) {
    forall i :: 0 <= i < |rows| ==> IsCatalogued(catalogue, rows[i].product, rows[i].name, rows[i].price)
  }

  ghost predicate ItemsCatalogued(catalogue: Catalogue, items: seq<ItemRow>) {
    forall i :: 0 <= i < |items| ==> IsCatalogued(catalogue, items[i].product, items[i].name, items[i].price)
  }

  ghost predicate SnapshotsCatalogued(catalogue: Catalogue, processes: map<Pid, Process>) {
    forall pid :: pid in processes && HasSnapshot(processes[pid]) ==> RowsCatalogued(catalogue, processes[pid].rows)
  }

  lemma StatementKeepsCatalogued(catalogue: Catalogue, db: Db, p: Process, e: Event)
    requires e.Execute? && Possible(catalogue, db, p, e.rows, e.amount, e.cents)
    requires ItemsCatalogued(catalogue, db.items) && (HasSnapshot(p) ==> RowsCatalogued(catalogue, p.rows))
    ensures var (after, p') := Statement(catalogue, db, p, e.rows, e.amount, e.cents);
            && ItemsCatalogued(catalogue, after.items) && (HasSnapshot(p') ==> RowsCatalogued(catalogue, p'.rows))
  {
    hide Money.Accumulates, Money.Stored, Money.Product, Decimal.OrderId, WithoutSession;
    if !p.ItemInserting? {
      StatementFrame(catalogue, db, p, e.rows, e.amount, e.cents);
      StatementSnapshot(catalogue, db, p, e);
      if p.CartReading? {
        assert RowsCatalogued(catalogue, e.rows);
      }
      hide Statement, Lists;
    }
  }

  /** In every run an item row carries the name and the price that the catalogue has for its product. */
  lemma {:induction false} ItemsAreCatalogued(catalogue: Catalogue, es: seq<Event>)
    requires IsRun(catalogue, es)
    ensures ItemsCatalogued(catalogue, After(catalogue, es).db.items)
    ensures SnapshotsCatalogued(catalogue, After(catalogue, es).processes)
  {
    if es != [] {
      var before, e := es[..|es| - 1], es[|es| - 1];
      ItemsAreCatalogued(catalogue, before);
      hide RowsCatalogued, ItemsCatalogued, Possible, Statement, Wrote;
      var s := After(catalogue, before);
      if e.Execute? {
        StatementKeepsCatalogued(catalogue, s.db, s.processes[e.pid], e);
      }
    }
  }

  // ----- the amounts

  function SubtotalSum(items: seq<ItemRow>): int {
    if items == [] then 0 else SubtotalSum(items[..|items| - 1]) + items[|items| - 1].subtotal
  }

  /** Carts whose amounts are exact: positive quantities, or amounts of either sign that together fit the column. */
  predicate Exact(rows: seq<CartRow>) {
    |rows| <= Money.LINE_LIMIT &&
    (Money.AllPositive(LinesOf(rows)) || Money.Mass(LinesOf(rows)) < Money.DECIMAL_LIMIT)
  }

  lemma {:induction false} SubtotalsAddUp(items: seq<ItemRow>, id: OrderId, rows: seq<CartRow>)
    requires IsPrefixFor(items, id, rows) && |items| == |rows|
    requires Money.Mass(LinesOf(rows)) < Money.DECIMAL_LIMIT
    ensures SubtotalSum(items) == Money.ExactTotal(LinesOf(rows))
  {
    if items != [] {
      var k := |items| - 1;
      assert LinesOf(rows)[..k] == LinesOf(rows[..k]);
      assert Money.Mass(LinesOf(rows)) == Money.Mass(LinesOf(rows[..k])) + Money.LineMass(LineOf(rows[k]));
      SubtotalsAddUp(items[..k], id, rows[..k]);
      assert IsItemFor(items[k], id, rows[k]);
      var amount: real :| Money.Product(LineOf(rows[k]), amount) && Money.Stored(amount, items[k].subtotal);
      Money.SubtotalExact(LineOf(rows[k]), amount, items[k].subtotal);
    }
  }

  /**
   When a checkout reads its order back, the rows it finds are its whole snapshot in order, whatever ran in
   between, and the stored total is both the exact total of the snapshot and the sum of the stored subtotals.
   */
  lemma RereadSeesTheWholeOrder(catalogue: Catalogue, es: seq<Event>, pid: Pid)
    requires IsRun(catalogue, es)
    requires pid in After(catalogue, es).processes
    requires var p := After(catalogue, es).processes[pid]; p.OrderReading? || p.ItemsReading?
    ensures var s := After(catalogue, es);
            var p := s.processes[pid];
            var items := ItemsOf(s.db.items, p.id);
            && p.id in s.db.orders
            && p.rows != [] && |items| == |p.rows| && IsPrefixFor(items, p.id, p.rows)
            && (Exact(p.rows) ==>
                  s.db.orders[p.id] == SubtotalSum(items) == Money.ExactTotal(LinesOf(p.rows)))
  {
    OrdersAreOwned(catalogue, es);
    var s := After(catalogue, es);
    var p := s.processes[pid];
    assert ProcessOwns(s.db, Creations(catalogue, es), pid, p);
    var creation := Creations(catalogue, es)[p.id];
    assert OrderOwned(s.db, p.id, creation);
    if Exact(p.rows) {
      var lines := LinesOf(p.rows);
      if Money.AllPositive(lines) {
        Money.TotalDecidedExactly(lines, creation.total, s.db.orders[p.id]);
        Money.TotalWithinMass(lines);
      } else {
        Money.TotalExact(lines, creation.total, s.db.orders[p.id]);
      }
      SubtotalsAddUp(ItemsOf(s.db.items, p.id), p.id, p.rows);
    }
  }
}
