/**
 No unit is lost or invented by a checkout. If the requests of one session do not overlap, then whatever other
 sessions do in between and wherever a checkout stops, the units a shopper has put in (less those taken out) are
 at every moment the units in the cart plus the units in the session's completed orders.
 (server/src/server.js:347-439)
 */
module Conservation {
  import opened Tables
  import opened ShopMachine
  import opened OrderOwnership

  // ----- one session's requests do not overlap

  predicate ActiveFor(p: Process, session: SessionId) {
    IsActive(p) && p.session == session
  }

  ghost predicate Busy(s: State, session: SessionId) {
    exists pid :: pid in s.processes && ActiveFor(s.processes[pid], session)
  }

  /** No request of the session begins while another one of it is unanswered. */
  ghost predicate IsSerial(catalogue: Catalogue, es: seq<Event>, session: SessionId) {
    es == [] ||
    (var before, e := es[..|es| - 1], es[|es| - 1];
     IsSerial(catalogue, before, session) &&
     (e.Begin? && e.request.session == session ==> !Busy(After(catalogue, before), session)))
  }

  ghost predicate AtMostOne(processes: map<Pid, Process>, session: SessionId) {
    forall p, q ::
      (p in processes && q in processes && ActiveFor(processes[p], session) && ActiveFor(processes[q], session)) ==>
        p == q
  }

  // ----- counting units

  function Quantity(cart: Cart, key: CartKey): int {
    if key in cart then cart[key] else 0
  }

  /** Units of a product among the item rows of the given orders. */
  function Units(items: seq<ItemRow>, ids: set<OrderId>, product: ProductId): int {
    if items == [] then 0
    else
      var rest, row := Units(items[..|items| - 1], ids, product), items[|items| - 1];
      if row.order in ids && row.product == product then rest + row.quantity else rest
  }

  function RowUnits(rows: seq<CartRow>, product: ProductId): int {
    if rows == [] then 0
    else
      var rest, row := RowUnits(rows[..|rows| - 1], product), rows[|rows| - 1];
      if row.product == product then rest + row.quantity else rest
  }

  function NextCompleted(s: State, e: Event, completed: set<OrderId>): set<OrderId> {
    if e.Execute? && e.pid in s.processes && s.processes[e.pid].CartClearing? then completed + {s.processes[e.pid].id}
    else completed
  }

  /** An order is complete once the statement that clears the cart has run. */
  function Completed(catalogue: Catalogue, es: seq<Event>): set<OrderId> {
    if es == [] then {}
    else
      var before, e := es[..|es| - 1], es[|es| - 1];
      NextCompleted(After(catalogue, before), e, Completed(catalogue, before))
  }

  function CompletedBy(created: map<OrderId, Creation>, completed: set<OrderId>, session: SessionId): set<OrderId> {
    set id | id in completed && id in created && created[id].session == session
  }

  function PutBy(catalogue: Catalogue, db: Db, p: Process, key: CartKey): int {
    match p
    case AddUpdating(s, product, q) =>
      if key == CartKey(s, product) && key in db.cart && AddQuantity(db, key, q).Accepted? then q else 0
    case AddInserting(s, product, q) =>
      if key == CartKey(s, product) && InsertCartItem(catalogue, db, key, q).Accepted? then q else 0
    case Setting(s, product, q) =>
      if key != CartKey(s, product) || key !in db.cart then 0
      else if q <= 0 then -db.cart[key]
      else if SetQuantity(db, key, q).Accepted? then q - db.cart[key] else 0
    case Removing(s, product) => if key == CartKey(s, product) then -Quantity(db.cart, key) else 0
    case Clearing(s) => if key.session == s then -Quantity(db.cart, key) else 0
    case _ => 0
  }

  /** What one event puts into, or takes out of, a cart line at the shopper's request; a checkout does neither. */
  function Put(catalogue: Catalogue, s: State, e: Event, key: CartKey): int {
    if e.Execute? && e.pid in s.processes then PutBy(catalogue, s.db, s.processes[e.pid], key) else 0
  }

  /** The shopper's account for one cart line over a run. */
  function Ledger(catalogue: Catalogue, es: seq<Event>, key: CartKey): int {
    if es == [] then 0
    else
      var before := es[..|es| - 1];
      Ledger(catalogue, before, key) + Put(catalogue, After(catalogue, before), es[|es| - 1], key)
  }

  // ----- lemmas about sums

  lemma UnitsAppended(items: seq<ItemRow>, row: ItemRow, ids: set<OrderId>, product: ProductId)
    ensures Units(items + [row], ids, product) ==
            Units(items, ids, product) + if row.order in ids && row.product == product then row.quantity else 0
  {
    assert (items + [row])[..|items|] == items;
  }

  lemma {:induction false} UnitsOfOneMore(items: seq<ItemRow>, ids: set<OrderId>, id: OrderId, product: ProductId)
    requires id !in ids
    ensures Units(items, ids + {id}, product) == Units(items, ids, product) + Units(ItemsOf(items, id), {id}, product)
  {
    if items != [] {
      var rest, row := items[..|items| - 1], items[|items| - 1];
      UnitsOfOneMore(rest, ids, id, product);
      if row.order == id {
        UnitsAppended(ItemsOf(rest, id), row, {id}, product);
      }
    }
  }

  lemma {:induction false} UnitsOfSnapshot(items: seq<ItemRow>, id: OrderId, rows: seq<CartRow>, product: ProductId)
    requires IsPrefixFor(items, id, rows) && |items| == |rows|
    ensures Units(items, {id}, product) == RowUnits(rows, product)
  {
    if items != [] {
      var k := |items| - 1;
      assert IsItemFor(items[k], id, rows[k]);
      UnitsOfSnapshot(items[..k], id, rows[..k], product);
    }
  }

  lemma {:induction false} RowUnitsOfAbsent(rows: seq<CartRow>, product: ProductId)
    requires forall i :: 0 <= i < |rows| ==> rows[i].product != product
    ensures RowUnits(rows, product) == 0
  {
    if rows != [] {
      RowUnitsOfAbsent(rows[..|rows| - 1], product);
    }
  }

  lemma {:induction false} RowUnitsOfListed(rows: seq<CartRow>, k: nat)
    requires k < |rows|
    requires forall i, j :: 0 <= i < j < |rows| ==> rows[i].product != rows[j].product
    ensures RowUnits(rows, rows[k].product) == rows[k].quantity
  {
    if k == |rows| - 1 {
      RowUnitsOfAbsent(rows[..k], rows[k].product);
    } else {
      RowUnitsOfListed(rows[..|rows| - 1], k);
    }
  }

  /** A listing of a cart holds as many units of each product as the cart. */
  lemma ListingCountsTheCart(catalogue: Catalogue, cart: Cart, key: CartKey, rows: seq<CartRow>)
    requires CartInCatalogue(catalogue, cart) && Lists(catalogue, cart, key.session, rows)
    ensures RowUnits(rows, key.product) == Quantity(cart, key)
  {
    if key in cart {
      var k :| 0 <= k < |rows| && rows[k].product == key.product;
      assert IsRowOf(catalogue, cart, key.session, rows[k]);
      RowUnitsOfListed(rows, k);
    } else {
      forall i | 0 <= i < |rows| ensures rows[i].product != key.product {
        assert IsRowOf(catalogue, cart, key.session, rows[i]);
      }
      RowUnitsOfAbsent(rows, key.product);
    }
  }

  // ----- the invariant

  predicate HoldsListing(p: Process) {
    p.Counting? || p.OrderInserting? || p.ItemInserting? || p.CartClearing?
  }

  /** Between its SELECT and its DELETE a checkout's snapshot still lists the session's cart. */
  ghost predicate ListingsCurrent(catalogue: Catalogue, s: State, session: SessionId) {
    forall pid :: pid in s.processes && s.processes[pid].session == session && HoldsListing(s.processes[pid]) ==>
      Lists(catalogue, s.db.cart, session, s.processes[pid].rows)
  }

  lemma OneLineChanges(catalogue: Catalogue, db: Db, p: Process, e: Event)
    requires e.Execute? && (p.AddUpdating? || p.AddInserting? || p.Setting? || p.Removing?)
    ensures var cart := Statement(catalogue, db, p, e.rows, e.amount, e.cents).0.cart;
            var own := CartKey(p.session, p.product);
            forall key :: key != own ==>
              (key in cart <==> key in db.cart) && (key in cart ==> cart[key] == db.cart[key])
  {}

  lemma OtherSessionsKeepLines(catalogue: Catalogue, db: Db, p: Process, e: Event, session: SessionId)
    requires e.Execute? && p.session != session
    ensures var cart := Statement(catalogue, db, p, e.rows, e.amount, e.cents).0.cart;
            forall key :: key in db.cart + cart && key.session == session ==>
              key in db.cart && key in cart && cart[key] == db.cart[key]
  {
    if !ChangesCart(p) {
      StatementFrame(catalogue, db, p, e.rows, e.amount, e.cents);
    } else if p.Clearing? || p.CartClearing? {
      assert Statement(catalogue, db, p, e.rows, e.amount, e.cents).0.cart == WithoutSession(db.cart, p.session);
    } else {
      OneLineChanges(catalogue, db, p, e);
    }
  }

  lemma OtherSessionsKeepListing(catalogue: Catalogue, db: Db, p: Process, e: Event, session: SessionId,
                                 rows: seq<CartRow>)
    requires e.Execute? && p.session != session && Lists(catalogue, db.cart, session, rows)
    ensures Lists(catalogue, Statement(catalogue, db, p, e.rows, e.amount, e.cents).0.cart, session, rows)
  {
    var cart := Statement(catalogue, db, p, e.rows, e.amount, e.cents).0.cart;
    OtherSessionsKeepLines(catalogue, db, p, e, session);
    forall i | 0 <= i < |rows| ensures IsRowOf(catalogue, cart, session, rows[i]) {
      assert IsRowOf(catalogue, db.cart, session, rows[i]);
      assert CartKey(session, rows[i].product).session == session;
    }
  }

  lemma StatementPuts(catalogue: Catalogue, db: Db, p: Process, e: Event, key: CartKey)
    requires e.Execute? && !p.CartClearing?
    ensures var cart := Statement(catalogue, db, p, e.rows, e.amount, e.cents).0.cart;
            Quantity(cart, key) == Quantity(db.cart, key) + PutBy(catalogue, db, p, key)
  {}

  lemma ListingOrigin(catalogue: Catalogue, db: Db, p: Process, e: Event)
    requires e.Execute?
    ensures var (after, p') := Statement(catalogue, db, p, e.rows, e.amount, e.cents);
            HoldsListing(p') ==>
              && after.cart == db.cart
              && (if p.CartReading? then p'.rows == e.rows else HoldsListing(p) && p'.rows == p.rows)
  {}

  lemma StatementKeepsListing(catalogue: Catalogue, db: Db, p: Process, e: Event, session: SessionId)
    requires e.Execute? && p.session == session && Possible(catalogue, db, p, e.rows, e.amount, e.cents)
    requires HoldsListing(p) ==> Lists(catalogue, db.cart, session, p.rows)
    ensures var (after, p') := Statement(catalogue, db, p, e.rows, e.amount, e.cents);
            HoldsListing(p') ==> Lists(catalogue, after.cart, session, p'.rows)
  {
    ListingOrigin(catalogue, db, p, e);
  }

  lemma StepKeepsAtMostOne(catalogue: Catalogue, s: State, e: Event, session: SessionId)
    requires Enabled(catalogue, s, e) && AtMostOne(s.processes, session)
    requires e.Begin? && e.request.session == session ==> !Busy(s, session)
    ensures AtMostOne(Apply(catalogue, s, e).processes, session)
  {
    if e.Execute? {
      StatementFrame(catalogue, s.db, s.processes[e.pid], e.rows, e.amount, e.cents);
      hide Statement;
    }
  }

  lemma StepKeepsListings(catalogue: Catalogue, s: State, e: Event, session: SessionId)
    requires Enabled(catalogue, s, e)
    requires AtMostOne(s.processes, session) && ListingsCurrent(catalogue, s, session)
    requires e.Begin? && e.request.session == session ==> !Busy(s, session)
    ensures AtMostOne(Apply(catalogue, s, e).processes, session)
    ensures ListingsCurrent(catalogue, Apply(catalogue, s, e), session)
  {
    StepKeepsAtMostOne(catalogue, s, e, session);
    if e.Execute? {
      var p := s.processes[e.pid];
      StatementFrame(catalogue, s.db, p, e.rows, e.amount, e.cents);
      if p.session == session {
        StatementKeepsListing(catalogue, s.db, p, e, session);
        assert ActiveFor(p, session);
      } else {
        forall pid | pid in s.processes && s.processes[pid].session == session && HoldsListing(s.processes[pid])
          ensures Lists(catalogue, Apply(catalogue, s, e).db.cart, session, s.processes[pid].rows)
        {
          OtherSessionsKeepListing(catalogue, s.db, p, e, session, s.processes[pid].rows);
        }
      }
    }
  }

  lemma {:induction false} SerialRunsKeepListings(catalogue: Catalogue, es: seq<Event>, session: SessionId)
    requires IsRun(catalogue, es) && IsSerial(catalogue, es, session)
    ensures AtMostOne(After(catalogue, es).processes, session)
    ensures ListingsCurrent(catalogue, After(catalogue, es), session)
  {
    if es != [] {
      var before := es[..|es| - 1];
      SerialRunsKeepListings(catalogue, before, session);
      StepKeepsListings(catalogue, After(catalogue, before), es[|es| - 1], session);
    }
  }

  /** What Owned says about one checkout that holds an order. */
  lemma HolderOwns(s: State, created: map<OrderId, Creation>, pid: Pid)
    requires Owned(s, created) && pid in s.processes && HasOrder(s.processes[pid])
    ensures var p := s.processes[pid];
            && p.id in created && created[p.id].session == p.session
            && IsPrefixFor(ItemsOf(s.db.items, p.id), p.id, p.rows) && |ItemsOf(s.db.items, p.id)| == RowsWritten(p)
  {
    assert ProcessOwns(s.db, created, pid, s.processes[pid]);
    assert OrderOwned(s.db, s.processes[pid].id, created[s.processes[pid].id]);
  }

  predicate WritesOrder(p: Process) {
    p.ItemInserting? || p.CartClearing?
  }

  /** Orders still being written are not complete. */
  ghost predicate OpenOrders(s: State, completed: set<OrderId>) {
    && completed <= s.db.orders.Keys
    && forall pid :: pid in s.processes && WritesOrder(s.processes[pid]) ==> s.processes[pid].id !in completed
  }

  lemma OneHolderEach(s: State, created: map<OrderId, Creation>, p: Pid, q: Pid)
    requires Owned(s, created) && p in s.processes && q in s.processes && p != q
    requires HasOrder(s.processes[p]) && HasOrder(s.processes[q])
    ensures s.processes[p].id != s.processes[q].id
  {
    assert ProcessOwns(s.db, created, p, s.processes[p]);
    assert ProcessOwns(s.db, created, q, s.processes[q]);
  }

  /** A process that is writing an order either was writing it before, or has just inserted it. */
  lemma StatementOpens(catalogue: Catalogue, db: Db, p: Process, e: Event)
    requires e.Execute?
    ensures var (after, p') := Statement(catalogue, db, p, e.rows, e.amount, e.cents);
            && db.orders.Keys <= after.orders.Keys
            && (p'.ItemInserting? || p'.CartClearing? ==>
                  (p.ItemInserting? && p'.id == p.id) || (p.OrderInserting? && p'.id !in db.orders))
  {}

  lemma ClearingKeepsOpenOrders(catalogue: Catalogue, s: State, e: Event, created: map<OrderId, Creation>,
                                completed: set<OrderId>)
    requires Owned(s, created) && OpenOrders(s, completed)
    requires e.Execute? && e.pid in s.processes && s.processes[e.pid].CartClearing?
    ensures OpenOrders(Apply(catalogue, s, e), NextCompleted(s, e, completed))
  {
    HolderOwns(s, created, e.pid);
    var p := s.processes[e.pid];
    var s' := State(DeleteCart(s.db, p.session), s.processes[e.pid := OrderReading(p.session, p.rows, p.id)]);
    forall pid | pid in s'.processes && WritesOrder(s'.processes[pid])
      ensures s'.processes[pid].id !in completed + {p.id}
    {
      OneHolderEach(s, created, pid, e.pid);
    }
    assert Apply(catalogue, s, e) == s';
  }

  lemma OtherStatementsKeepOpenOrders(catalogue: Catalogue, s: State, e: Event, completed: set<OrderId>)
    requires OpenOrders(s, completed)
    requires e.Execute? && e.pid in s.processes && !s.processes[e.pid].CartClearing?
    ensures OpenOrders(Apply(catalogue, s, e), completed)
  {
    hide Statement;
    StatementOpens(catalogue, s.db, s.processes[e.pid], e);
  }

  lemma StepKeepsOpenOrders(catalogue: Catalogue, s: State, e: Event,
                            created: map<OrderId, Creation>, completed: set<OrderId>)
    requires Enabled(catalogue, s, e) && Owned(s, created) && OpenOrders(s, completed)
    ensures OpenOrders(Apply(catalogue, s, e), NextCompleted(s, e, completed))
  {
    if !e.Execute? {
      hide Owned;
    } else if s.processes[e.pid].CartClearing? {
      ClearingKeepsOpenOrders(catalogue, s, e, created, completed);
    } else {
      OtherStatementsKeepOpenOrders(catalogue, s, e, completed);
    }
  }

  lemma {:induction false} OpenOrdersAreNotComplete(catalogue: Catalogue, es: seq<Event>)
    requires IsRun(catalogue, es)
    ensures OpenOrders(After(catalogue, es), Completed(catalogue, es))
  {
    if es != [] {
      var before := es[..|es| - 1];
      OpenOrdersAreNotComplete(catalogue, before);
      OrdersAreOwned(catalogue, before);
      StepKeepsOpenOrders(catalogue, After(catalogue, before), es[|es| - 1],
                          Creations(catalogue, before), Completed(catalogue, before));
    }
  }

  // ----- conservation

  /**
   The units a checkout deletes from the cart without having written item rows for them: what the cart holds at its
   DELETE less what its snapshot held at its SELECT. Less than zero, it has sold units that were taken out meanwhile.
   */
  function Missed(s: State, e: Event, key: CartKey): int {
    if e.Execute? && e.pid in s.processes && s.processes[e.pid].CartClearing?
       && s.processes[e.pid].session == key.session
    then
      Quantity(s.db.cart, key) - RowUnits(s.processes[e.pid].rows, key.product)
    else 0
  }

  function Lost(catalogue: Catalogue, es: seq<Event>, key: CartKey): int {
    if es == [] then 0
    else
      var before := es[..|es| - 1];
      Lost(catalogue, before, key) + Missed(After(catalogue, before), es[|es| - 1], key)
  }

  /** The statement that clears the cart turns the snapshot's units into units of a completed order. */
  lemma ClearingCompletesTheOrder(db: Db, p: Process, key: CartKey, created: map<OrderId, Creation>,
                                  completed: set<OrderId>)
    requires p.CartClearing? && p.id in created && created[p.id].session == p.session && p.id !in completed
    requires IsPrefixFor(ItemsOf(db.items, p.id), p.id, p.rows) && |ItemsOf(db.items, p.id)| == |p.rows|
    ensures Quantity(DeleteCart(db, p.session).cart, key) +
            Units(db.items, CompletedBy(created, completed + {p.id}, key.session), key.product) ==
            Units(db.items, CompletedBy(created, completed, key.session), key.product) +
            if p.session == key.session then RowUnits(p.rows, key.product) else Quantity(db.cart, key)
  {
    var ids := CompletedBy(created, completed, key.session);
    var ids' := CompletedBy(created, completed + {p.id}, key.session);
    if p.session == key.session {
      assert ids' == ids + {p.id};
      UnitsOfOneMore(db.items, ids, p.id, key.product);
      UnitsOfSnapshot(ItemsOf(db.items, p.id), p.id, p.rows, key.product);
    } else {
      assert ids' == ids;
    }
  }

  lemma ItemInsertKeepsUnits(catalogue: Catalogue, db: Db, p: Process, e: Event, ids: set<OrderId>, product: ProductId)
    requires e.Execute? && p.ItemInserting? && p.id !in ids
    ensures Units(Statement(catalogue, db, p, e.rows, e.amount, e.cents).0.items, ids, product) ==
              Units(db.items, ids, product)
  {
    if p.next < |p.rows| {
      UnitsAppended(db.items, OrderItem(p.id, p.rows[p.next], e.cents), ids, product);
    }
  }

  /**
   Every other statement changes the cart by what the shopper puts in or takes out, and completed orders not at all.
   */
  lemma OtherStatementsPut(catalogue: Catalogue, db: Db, p: Process, e: Event, key: CartKey, ids: set<OrderId>)
    requires e.Execute? && !p.CartClearing? && (p.ItemInserting? ==> p.id !in ids)
    ensures var after := Statement(catalogue, db, p, e.rows, e.amount, e.cents).0;
            && Quantity(after.cart, key) == Quantity(db.cart, key) + PutBy(catalogue, db, p, key)
            && Units(after.items, ids, key.product) == Units(db.items, ids, key.product)
  {
    StatementPuts(catalogue, db, p, e, key);
    StatementFrame(catalogue, db, p, e.rows, e.amount, e.cents);
    if p.ItemInserting? {
      ItemInsertKeepsUnits(catalogue, db, p, e, ids, key.product);
    }
  }

  /** A new order is not complete. */
  lemma NewOrdersAreIncomplete(s: State, e: Event, created: map<OrderId, Creation>, completed: set<OrderId>,
                               session: SessionId)
    requires completed <= s.db.orders.Keys
    ensures CompletedBy(NextCreations(s, e, created), completed, session) == CompletedBy(created, completed, session)
  {}

  /**
   In every run at all, overlapping requests included, the shopper's account differs from the units in the cart plus
   the units in completed orders by exactly what checkouts have missed. A checkout that loses the race for its id, or
   stops at any statement, leaves both sides alone.
   */
  lemma {:induction false} UnitsAreAccountedFor(catalogue: Catalogue, es: seq<Event>, key: CartKey)
    requires IsRun(catalogue, es)
    ensures var s := After(catalogue, es);
            Ledger(catalogue, es, key) ==
            Quantity(s.db.cart, key) + Lost(catalogue, es, key) +
            Units(s.db.items, CompletedBy(Creations(catalogue, es), Completed(catalogue, es), key.session), key.product)
  {
    if es != [] {
      var before, e := es[..|es| - 1], es[|es| - 1];
      UnitsAreAccountedFor(catalogue, before, key);
      var s, created, completed := After(catalogue, before), Creations(catalogue, before), Completed(catalogue, before);
      OrdersAreOwned(catalogue, before);
      OpenOrdersAreNotComplete(catalogue, before);
      var ids := CompletedBy(created, completed, key.session);
      NewOrdersAreIncomplete(s, e, created, completed, key.session);
      if e.Execute? {
        var p := s.processes[e.pid];
        if p.CartClearing? {
          HolderOwns(s, created, e.pid);
          ClearingCompletesTheOrder(s.db, p, key, created, completed);
        } else {
          OtherStatementsPut(catalogue, s.db, p, e, key, ids);
        }
      }
    }
  }

  /** Between the SELECT and the DELETE of a checkout nothing comes in, if the session's requests do not overlap. */
  lemma {:induction false} SerialRunsLoseNothing(catalogue: Catalogue, es: seq<Event>, key: CartKey)
    requires IsRun(catalogue, es) && IsSerial(catalogue, es, key.session)
    ensures Lost(catalogue, es, key) == 0
  {
    if es != [] {
      var before, e := es[..|es| - 1], es[|es| - 1];
      SerialRunsLoseNothing(catalogue, before, key);
      var s := After(catalogue, before);
      if e.Execute? && s.processes[e.pid].CartClearing? && s.processes[e.pid].session == key.session {
        CartStaysInCatalogue(catalogue, before);
        SerialRunsKeepListings(catalogue, before, key.session);
        ListingCountsTheCart(catalogue, s.db.cart, key, s.processes[e.pid].rows);
      }
    }
  }

  /** Conservation of units, at every moment of every run in which the session's own requests do not overlap. */
  lemma UnitsAreConserved(catalogue: Catalogue, es: seq<Event>, key: CartKey)
    requires IsRun(catalogue, es) && IsSerial(catalogue, es, key.session)
    ensures var s := After(catalogue, es);
            Ledger(catalogue, es, key) ==
            Quantity(s.db.cart, key) +
            Units(s.db.items, CompletedBy(Creations(catalogue, es), Completed(catalogue, es), key.session), key.product)
  {
    UnitsAreAccountedFor(catalogue, es, key);
    SerialRunsLoseNothing(catalogue, es, key);
  }

  // ----- what a checkout misses, as events

  /** What one event does to a cart line, at the shopper's request or by clearing the cart for a checkout. */
  function Change(catalogue: Catalogue, s: State, e: Event, key: CartKey): int {
    Put(catalogue, s, e, key) -
    if e.Execute? && e.pid in s.processes && s.processes[e.pid].CartClearing?
       && s.processes[e.pid].session == key.session
    then
      Quantity(s.db.cart, key)
    else 0
  }

  /** The changes from event n on. */
  function ChangesSince(catalogue: Catalogue, es: seq<Event>, n: nat, key: CartKey): int
    requires n <= |es|
  {
    if |es| == n then 0
    else
      var before := es[..|es| - 1];
      ChangesSince(catalogue, before, n, key) + Change(catalogue, After(catalogue, before), es[|es| - 1], key)
  }

  lemma EventChanges(catalogue: Catalogue, s: State, e: Event, key: CartKey)
    ensures Quantity(Apply(catalogue, s, e).db.cart, key) == Quantity(s.db.cart, key) + Change(catalogue, s, e, key)
  {
    if e.Execute? && e.pid in s.processes && !s.processes[e.pid].CartClearing? {
      StatementPuts(catalogue, s.db, s.processes[e.pid], e, key);
    }
  }

  lemma {:induction false} QuantityChanges(catalogue: Catalogue, es: seq<Event>, n: nat, key: CartKey)
    requires n <= |es|
    ensures Quantity(After(catalogue, es).db.cart, key) ==
            Quantity(After(catalogue, es[..n]).db.cart, key) + ChangesSince(catalogue, es, n, key)
    decreases |es|
  {
    if |es| == n {
      assert es[..n] == es;
    } else {
      var before := es[..|es| - 1];
      assert before[..n] == es[..n];
      QuantityChanges(catalogue, before, n, key);
      EventChanges(catalogue, After(catalogue, before), es[|es| - 1], key);
    }
  }

  /** Event n is the SELECT with which checkout pid read these rows. */
  ghost predicate IsSnapshot(catalogue: Catalogue, es: seq<Event>, n: nat, pid: Pid, session: SessionId,
                             rows: seq<CartRow>)
  {
    && n < |es| && es[n].Execute? && es[n].pid == pid && es[n].rows == rows
    && pid in After(catalogue, es[..n]).processes && After(catalogue, es[..n]).processes[pid] == CartReading(session)
    && Lists(catalogue, After(catalogue, es[..n]).db.cart, session, rows)
  }

  /** Every checkout with a snapshot has taken it at one event of its own. */
  lemma {:induction false} SnapshotWasTaken(catalogue: Catalogue, es: seq<Event>, pid: Pid) returns (n: nat)
    requires IsRun(catalogue, es) && pid in After(catalogue, es).processes
    requires HasSnapshot(After(catalogue, es).processes[pid])
    ensures var p := After(catalogue, es).processes[pid]; IsSnapshot(catalogue, es, n, pid, p.session, p.rows)
  {
    var before, e := es[..|es| - 1], es[|es| - 1];
    var s := After(catalogue, before);
    if e.pid == pid && !e.Begin? && s.processes[pid].CartReading? {
      n := |es| - 1;
    } else {
      if e.Execute? && e.pid == pid {
        StatementSnapshot(catalogue, s.db, s.processes[pid], e);
        StatementFrame(catalogue, s.db, s.processes[pid], e.rows, e.amount, e.cents);
      }
      hide Lists;
      n := SnapshotWasTaken(catalogue, before, pid);
      assert before[..n] == es[..n];
    }
  }

  /**
   What a checkout misses when it clears the cart is exactly what has come into the line, or gone from it, between its
   SELECT and its DELETE: other requests of the session, and other checkouts of it.
   */
  lemma MissedIsWhatCameBetween(catalogue: Catalogue, es: seq<Event>, e: Event, key: CartKey) returns (n: nat)
    requires IsRun(catalogue, es) && e.Execute? && e.pid in After(catalogue, es).processes
    requires var p := After(catalogue, es).processes[e.pid]; p.CartClearing? && p.session == key.session
    ensures IsSnapshot(catalogue, es, n, e.pid, key.session, After(catalogue, es).processes[e.pid].rows)
    ensures Missed(After(catalogue, es), e, key) == ChangesSince(catalogue, es, n, key)
  {
    var rows := After(catalogue, es).processes[e.pid].rows;
    n := SnapshotWasTaken(catalogue, es, e.pid);
    PrefixIsRun(catalogue, es, n);
    CartStaysInCatalogue(catalogue, es[..n]);
    ListingCountsTheCart(catalogue, After(catalogue, es[..n]).db.cart, key, rows);
    hide IsRun, After, ChangesSince, Lists;
    QuantityChanges(catalogue, es, n, key);
  }
}
