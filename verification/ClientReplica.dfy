/**
 The browser keeps its own cart: after every call the server answers, the reducer repeats the change locally
 (client/src/context/AppContext.tsx). The two are written independently; this module proves that the replica
 equals the session's rows in cart_items, whatever other sessions do meanwhile.
 */
module ClientReplica {
  import opened Tables
  import opened ShopMachine
  import opened OrderOwnership
  import opened Conservation

  /** One CartItem of the client's state; of the product object only the id matters to the reducer. */
  datatype CartLine = CartLine(product: ProductId, quantity: int)

  type ClientCart = seq<CartLine>

  datatype Action =
    | SetCart(cart: ClientCart)
    | AddToCart(product: ProductId, quantity: int)
    | UpdateCartItem(product: ProductId, quantity: int)
    | RemoveFromCart(product: ProductId)
    | ClearCart

  // ----- the reducer

  /** The callbacks that the reducer passes to map and filter. */
  datatype Change = Plus(units: int) | To(units: int)
  datatype Keep = PositiveLines | LinesOtherThan(product: ProductId)

  function Changed(quantity: int, change: Change): int {
    match change
    case Plus(units) => quantity + units
    case To(units) => units
  }

  predicate IsKept(line: CartLine, keep: Keep) {
    match keep
    case PositiveLines => line.quantity > 0
    case LinesOtherThan(product) => line.product != product
  }

  function MappedLine(line: CartLine, product: ProductId, change: Change): CartLine {
    if line.product == product then line.(quantity := Changed(line.quantity, change)) else line
  }

  /** cart.map(item => item.product.id === product ? { ...item, quantity: changed } : item) */
  function Mapped(cart: ClientCart, product: ProductId, change: Change): (mapped: ClientCart)
    ensures |mapped| == |cart|
    ensures forall i :: 0 <= i < |cart| ==> mapped[i] == MappedLine(cart[i], product, change)
  {
    seq(|cart|, i requires 0 <= i < |cart| => MappedLine(cart[i], product, change))
  }

  /** cart.filter(keep) */
  function Filtered(cart: ClientCart, keep: Keep): ClientCart {
    if cart == [] then []
    else
      var rest, line := Filtered(cart[..|cart| - 1], keep), cart[|cart| - 1];
      if IsKept(line, keep) then rest + [line] else rest
  }

  predicate Contains(cart: ClientCart, product: ProductId) {
    exists i :: 0 <= i < |cart| && cart[i].product == product
  }

  function Reduce(cart: ClientCart, action: Action): ClientCart {
    match action
    case SetCart(replacement) => replacement
    case AddToCart(product, quantity) =>
      if Contains(cart, product) then Mapped(cart, product, Plus(quantity)) else cart + [CartLine(product, quantity)]
    case UpdateCartItem(product, quantity) => Filtered(Mapped(cart, product, To(quantity)), PositiveLines)
    case RemoveFromCart(product) => Filtered(cart, LinesOtherThan(product))
    case ClearCart => []
  }

  // ----- the order of the lines

  function Products(cart: ClientCart): seq<ProductId> {
    if cart == [] then [] else Products(cart[..|cart| - 1]) + [cart[|cart| - 1].product]
  }

  predicate IsSubsequence(part: seq<ProductId>, whole: seq<ProductId>) {
    part == [] ||
    (whole != [] &&
     if part[|part| - 1] == whole[|whole| - 1] then IsSubsequence(part[..|part| - 1], whole[..|whole| - 1])
     else IsSubsequence(part, whole[..|whole| - 1]))
  }

  lemma {:induction false} SubsequenceOfLonger(part: seq<ProductId>, whole: seq<ProductId>, last: ProductId)
    requires IsSubsequence(part, whole)
    ensures IsSubsequence(part, whole + [last])
    decreases |whole|
  {
    assert (whole + [last])[..|whole|] == whole;
    if part != [] && part[|part| - 1] == last {
      var front := part[..|part| - 1];
      var k := |whole| - 1;
      assert whole == whole[..k] + [whole[k]];
      if part[|part| - 1] == whole[k] {
        SubsequenceOfLonger(front, whole[..k], whole[k]);
      } else {
        FrontIsSubsequence(part, whole[..k]);
        SubsequenceOfLonger(front, whole[..k], whole[k]);
      }
    }
  }

  lemma {:induction false} FrontIsSubsequence(part: seq<ProductId>, whole: seq<ProductId>)
    requires part != [] && IsSubsequence(part, whole)
    ensures IsSubsequence(part[..|part| - 1], whole)
    decreases |whole|
  {
    var k := |whole| - 1;
    assert whole == whole[..k] + [whole[k]];
    if part[|part| - 1] != whole[k] {
      FrontIsSubsequence(part, whole[..k]);
    }
    SubsequenceOfLonger(part[..|part| - 1], whole[..k], whole[k]);
  }

  lemma {:induction false} FilteredInOrder(cart: ClientCart, keep: Keep)
    ensures IsSubsequence(Products(Filtered(cart, keep)), Products(cart))
  {
    if cart != [] {
      var front, line := cart[..|cart| - 1], cart[|cart| - 1];
      FilteredInOrder(front, keep);
      var rest := Filtered(front, keep);
      assert (rest + [line])[..|rest|] == rest;
      SubsequenceOfLonger(Products(rest), Products(front), line.product);
      assert (Products(rest) + [line.product])[..|Products(rest)|] == Products(rest);
      assert (Products(front) + [line.product])[..|Products(front)|] == Products(front);
    }
  }

  lemma {:induction false} MappedInPlace(cart: ClientCart, product: ProductId, change: Change)
    ensures Products(Mapped(cart, product, change)) == Products(cart)
  {
    if cart != [] {
      MappedInPlace(cart[..|cart| - 1], product, change);
      assert Mapped(cart, product, change)[..|cart| - 1] == Mapped(cart[..|cart| - 1], product, change);
    }
  }

  /** No action moves a line past another, and a new line comes last; a load replaces them all. */
  lemma ReducingKeepsTheOrder(cart: ClientCart, action: Action)
    requires !action.SetCart?
    ensures var after := Products(Reduce(cart, action));
            if !action.AddToCart? then IsSubsequence(after, Products(cart))
            else after == Products(cart) + if Contains(cart, action.product) then [] else [action.product]
  {
    match action
    case AddToCart(product, quantity) =>
      MappedInPlace(cart, product, Plus(quantity));
      assert (cart + [CartLine(product, quantity)])[..|cart|] == cart;
    case UpdateCartItem(product, quantity) =>
      MappedInPlace(cart, product, To(quantity));
      FilteredInOrder(Mapped(cart, product, To(quantity)), PositiveLines);
    case RemoveFromCart(product) => FilteredInOrder(cart, LinesOtherThan(product));
    case ClearCart =>
  }

  // ----- agreement with the server's rows

  /** The rows that GET /api/cart finds, as quantities by product id. */
  function Rows(cart: Cart, session: SessionId): map<ProductId, int> {
    map key | key in cart && key.session == session :: key.product := cart[key]
  }

  function AsMap(cart: ClientCart): map<ProductId, int> {
    if cart == [] then map[] else AsMap(cart[..|cart| - 1])[cart[|cart| - 1].product := cart[|cart| - 1].quantity]
  }

  predicate UniqueIds(cart: ClientCart) {
    forall i, j :: 0 <= i < j < |cart| ==> cart[i].product != cart[j].product
  }

  predicate Positive(cart: ClientCart) {
    forall i :: 0 <= i < |cart| ==> cart[i].quantity > 0
  }

  /** Same products, same quantities, no product twice. */
  ghost predicate Matches(lines: ClientCart, rows: map<ProductId, int>) {
    && UniqueIds(lines)
    && (forall i :: 0 <= i < |lines| ==> lines[i].product in rows && rows[lines[i].product] == lines[i].quantity)
    && (forall product :: product in rows ==> Contains(lines, product))
  }

  lemma {:induction false} AsMapHas(lines: ClientCart, i: nat)
    requires i < |lines| && UniqueIds(lines)
    ensures lines[i].product in AsMap(lines) && AsMap(lines)[lines[i].product] == lines[i].quantity
  {
    if i < |lines| - 1 {
      AsMapHas(lines[..|lines| - 1], i);
    }
  }

  lemma {:induction false} AsMapHasOnly(lines: ClientCart, product: ProductId)
    requires product in AsMap(lines)
    ensures Contains(lines, product)
  {
    var init, last := lines[..|lines| - 1], lines[|lines| - 1];
    if product != last.product {
      AsMapHasOnly(init, product);
      var i :| 0 <= i < |init| && init[i].product == product;
      assert lines[i].product == product;
    }
  }

  lemma MatchesMeansEqual(lines: ClientCart, rows: map<ProductId, int>)
    requires Matches(lines, rows)
    ensures AsMap(lines) == rows
  {
    forall product ensures product in AsMap(lines) <==> product in rows
                   ensures product in rows ==> product in AsMap(lines) && AsMap(lines)[product] == rows[product]
    {
      if product in AsMap(lines) {
        AsMapHasOnly(lines, product);
      }
      if i :| 0 <= i < |lines| && lines[i].product == product {
        AsMapHas(lines, i);
      }
    }
  }

  // ----- each action against each statement

  lemma {:induction false} FilteredHas(cart: ClientCart, keep: Keep, line: CartLine)
    ensures line in Filtered(cart, keep) <==> line in cart && IsKept(line, keep)
  {
    if cart != [] {
      FilteredHas(cart[..|cart| - 1], keep, line);
      assert cart == cart[..|cart| - 1] + [cart[|cart| - 1]];
    }
  }

  lemma {:induction false} FilteredUnique(cart: ClientCart, keep: Keep)
    requires UniqueIds(cart)
    ensures UniqueIds(Filtered(cart, keep))
  {
    if cart != [] {
      var init, last := cart[..|cart| - 1], cart[|cart| - 1];
      FilteredUnique(init, keep);
      var rest := Filtered(init, keep);
      forall i | 0 <= i < |rest| ensures rest[i].product != last.product {
        FilteredHas(init, keep, rest[i]);
      }
    }
  }

  /** A filtered cart matches exactly the rows whose lines are kept. */
  lemma FilteredMatches(cart: ClientCart, keep: Keep, rows: map<ProductId, int>, kept: map<ProductId, int>)
    requires Matches(cart, rows)
    requires forall product :: product in kept <==> product in rows && IsKept(CartLine(product, rows[product]), keep)
    requires forall product :: product in kept ==> kept[product] == rows[product]
    ensures Matches(Filtered(cart, keep), kept)
  {
    var lines := Filtered(cart, keep);
    FilteredUnique(cart, keep);
    forall i | 0 <= i < |lines| ensures lines[i].product in kept && kept[lines[i].product] == lines[i].quantity {
      FilteredHas(cart, keep, lines[i]);
      var j :| 0 <= j < |cart| && cart[j] == lines[i];
    }
    forall product | product in kept ensures Contains(lines, product) {
      var j :| 0 <= j < |cart| && cart[j].product == product;
      FilteredHas(cart, keep, cart[j]);
      var i :| 0 <= i < |lines| && lines[i] == cart[j];
    }
  }

  lemma MappedContains(cart: ClientCart, product: ProductId, change: Change, x: ProductId)
    ensures Contains(Mapped(cart, product, change), x) <==> Contains(cart, x)
  {
    var lines := Mapped(cart, product, change);
    if i :| 0 <= i < |cart| && cart[i].product == x {
      assert lines[i].product == x;
    }
    if i :| 0 <= i < |lines| && lines[i].product == x {
      assert cart[i].product == x;
    }
  }

  lemma MappedMatches(cart: ClientCart, product: ProductId, change: Change, rows: map<ProductId, int>)
    requires Matches(cart, rows)
    ensures Matches(Mapped(cart, product, change),
                    if product in rows then rows[product := Changed(rows[product], change)] else rows)
  {
    var lines := Mapped(cart, product, change);
    var rows' := if product in rows then rows[product := Changed(rows[product], change)] else rows;
    forall i | 0 <= i < |lines| ensures lines[i].product in rows' && rows'[lines[i].product] == lines[i].quantity {
      assert cart[i].product in rows && lines[i] == MappedLine(cart[i], product, change);
    }
    forall x | x in rows' ensures Contains(lines, x) {
      MappedContains(cart, product, change, x);
    }
  }

  lemma NewLineMatches(cart: ClientCart, product: ProductId, quantity: int, rows: map<ProductId, int>)
    requires Matches(cart, rows) && product !in rows
    ensures Matches(cart + [CartLine(product, quantity)], rows[product := quantity])
  {
    var lines := cart + [CartLine(product, quantity)];
    assert lines[|cart|].product == product;
    forall x | x in rows ensures Contains(lines, x) {
      var j :| 0 <= j < |cart| && cart[j].product == x;
      assert lines[j].product == x;
    }
  }

  lemma ContainsExactlyRows(cart: ClientCart, rows: map<ProductId, int>, product: ProductId)
    requires Matches(cart, rows)
    ensures Contains(cart, product) <==> product in rows
  {}

  lemma AddMatches(cart: ClientCart, product: ProductId, quantity: int, rows: map<ProductId, int>)
    requires Matches(cart, rows)
    ensures Matches(Reduce(cart, AddToCart(product, quantity)),
                    rows[product := if product in rows then rows[product] + quantity else quantity])
  {
    ContainsExactlyRows(cart, rows, product);
    if product in rows {
      MappedMatches(cart, product, Plus(quantity), rows);
    } else {
      NewLineMatches(cart, product, quantity, rows);
    }
  }

  lemma RemoveMatches(cart: ClientCart, product: ProductId, rows: map<ProductId, int>)
    requires Matches(cart, rows)
    ensures Matches(Reduce(cart, RemoveFromCart(product)), rows - {product})
  {
    FilteredMatches(cart, LinesOtherThan(product), rows, rows - {product});
  }

  /** The rows after PUT /api/cart/:id. */
  function Updated(rows: map<ProductId, int>, product: ProductId, quantity: int): map<ProductId, int> {
    if quantity <= 0 then rows - {product} else if product in rows then rows[product := quantity] else rows
  }

  /** The other lines of the cart, which PUT leaves alone on the server, are positive. */
  predicate OthersPositive(rows: map<ProductId, int>, product: ProductId) {
    forall x :: x in rows && x != product ==> rows[x] > 0
  }

  lemma MatchesOneMap(lines: ClientCart, rows: map<ProductId, int>, other: map<ProductId, int>)
    requires Matches(lines, rows)
    ensures Matches(lines, other) <==> rows == other
  {
    MatchesMeansEqual(lines, rows);
    if Matches(lines, other) {
      MatchesMeansEqual(lines, other);
    }
  }

  lemma KeptAreUpdated(rows: map<ProductId, int>, product: ProductId, quantity: int)
    ensures var between := if product in rows then rows[product := quantity] else rows;
            (map x | x in between && between[x] > 0 :: between[x]) == Updated(rows, product, quantity)
            <==> OthersPositive(rows, product)
  {
    var between := if product in rows then rows[product := quantity] else rows;
    var kept := map x | x in between && between[x] > 0 :: between[x];
    if x :| x in rows && x != product && rows[x] <= 0 {
      assert x in Updated(rows, product, quantity) && x !in kept;
    }
  }

  /**
   The reducer filters every line that is not positive, the server deletes one row: the two agree after an update
   exactly when no other line of the cart is zero or negative (as a POST with such a quantity would leave it).
   */
  lemma UpdateMatchesExactlyIfOthersPositive(cart: ClientCart, product: ProductId, quantity: int,
                                             rows: map<ProductId, int>)
    requires Matches(cart, rows)
    ensures Matches(Reduce(cart, UpdateCartItem(product, quantity)), Updated(rows, product, quantity))
            <==> OthersPositive(rows, product)
  {
    hide Matches, Filtered;
    var mapped := Mapped(cart, product, To(quantity));
    var between := if product in rows then rows[product := quantity] else rows;
    MappedMatches(cart, product, To(quantity), rows);
    var kept := map x | x in between && between[x] > 0 :: between[x];
    FilteredMatches(mapped, PositiveLines, between, kept);
    MatchesOneMap(Filtered(mapped, PositiveLines), kept, Updated(rows, product, quantity));
    KeptAreUpdated(rows, product, quantity);
  }

  // ----- the provider's actions: call the server, then dispatch if it answered with success

  function ShownLines(rows: seq<CartRow>): (lines: ClientCart)
    ensures |lines| == |rows|
    ensures forall i :: 0 <= i < |rows| ==> lines[i] == CartLine(rows[i].product, rows[i].quantity)
  {
    seq(|rows|, i requires 0 <= i < |rows| => CartLine(rows[i].product, rows[i].quantity))
  }

  /** What the provider dispatches to the cart when a call succeeds; shown is the answer of GET /api/cart. */
  function ActionOf(r: Request, shown: ClientCart): Action {
    match r
    case Show(_) => SetCart(shown)
    case Add(_, product, q) => AddToCart(product, q)
    case Update(_, product, q) => UpdateCartItem(product, q)
    case Remove(_, product) => RemoveFromCart(product)
    case Clear(_) => ClearCart
    case Checkout(_) => ClearCart
  }

  predicate Succeeds(p: Process) {
    p.Done? && (p.answer == Okay || p.answer == Created)
  }

  /** The client's cart after one event: it changes when a request of its session is answered with success. */
  function NextReplica(catalogue: Catalogue, s: State, e: Event, session: SessionId, requests: map<Pid, Request>,
                       lines: ClientCart): ClientCart
  {
    if e.Execute? && e.pid in s.processes && e.pid in requests && ActiveFor(s.processes[e.pid], session) &&
       Succeeds(Statement(catalogue, s.db, s.processes[e.pid], e.rows, e.amount, e.cents).1)
    then Reduce(lines, ActionOf(requests[e.pid], ShownLines(e.rows)))
    else lines
  }

  /** The cart of a client that held these lines after the first n events. */
  function Replica(catalogue: Catalogue, es: seq<Event>, n: nat, lines: ClientCart, session: SessionId): ClientCart
    requires n <= |es|
  {
    if |es| == n then lines
    else
      var before := es[..|es| - 1];
      NextReplica(catalogue, After(catalogue, before), es[|es| - 1], session, Requests(before),
                  Replica(catalogue, before, n, lines, session))
  }

  /** What the client holds later depends only on what it holds at any moment in between. */
  lemma {:induction false} ReplicaGoesOn(catalogue: Catalogue, es: seq<Event>, n: nat, m: nat, lines: ClientCart,
                                         session: SessionId)
    requires n <= m <= |es|
    ensures Replica(catalogue, es, n, lines, session) ==
            Replica(catalogue, es, m, Replica(catalogue, es[..m], n, lines, session), session)
    decreases |es|
  {
    if m < |es| {
      ReplicaGoesOn(catalogue, es[..|es| - 1], n, m, lines, session);
      assert es[..|es| - 1][..m] == es[..m];
    } else {
      assert es[..m] == es;
    }
  }

  /** The change is in the tables but the answer is not yet out. */
  predicate Pending(p: Process) {
    p.Rereading? || p.OrderReading? || p.ItemsReading?
  }

  ghost predicate IsSoleStep(s: State, e: Event, session: SessionId) {
    && (e.Begin? && e.request.session == session ==> !Busy(s, session) && (e.request.Add? ==> e.request.quantity > 0))
    && (e.Refuse? && e.pid in s.processes && s.processes[e.pid].session == session ==> !Pending(s.processes[e.pid]))
  }

  /**
   From event n on the session belongs to one client that waits for each answer and adds positive quantities; a
   statement of its requests may be refused, but not after the change has gone through.
   */
  ghost predicate IsSoleClient(catalogue: Catalogue, es: seq<Event>, n: nat, session: SessionId)
    requires n <= |es|
  {
    |es| == n ||
    (var before, e := es[..|es| - 1], es[|es| - 1];
     IsSoleClient(catalogue, before, n, session) && IsSoleStep(After(catalogue, before), e, session))
  }

  // ----- the invariant

  predicate PositiveRows(rows: map<ProductId, int>) {
    forall product :: product in rows ==> rows[product] > 0
  }

  /** Where a request of the session stands, and what that says about the client's lines. */
  ghost predicate ProcessInStep(rows: map<ProductId, int>, p: Process, r: Request, lines: ClientCart) {
    && PositiveRows(rows)
    && (r.Add? ==> r.quantity > 0)
    && Matches(if Pending(p) then Reduce(lines, ActionOf(r, [])) else lines, rows)
    && (p.AddUpdating? ==> p.product in rows)
    && (p.AddInserting? ==> p.product !in rows)
  }

  ghost predicate AtRest(rows: map<ProductId, int>, lines: ClientCart) {
    PositiveRows(rows) && Matches(lines, rows)
  }

  ghost predicate InStep(s: State, requests: map<Pid, Request>, lines: ClientCart, session: SessionId) {
    var rows := Rows(s.db.cart, session);
    && (!Busy(s, session) ==> AtRest(rows, lines))
    && forall pid :: pid in s.processes && pid in requests && ActiveFor(s.processes[pid], session) ==>
         ProcessInStep(rows, s.processes[pid], requests[pid], lines)
  }

  lemma RowsSet(cart: Cart, key: CartKey, quantity: int)
    ensures Rows(cart[key := quantity], key.session) == Rows(cart, key.session)[key.product := quantity]
  {}

  lemma RowsRemoved(cart: Cart, key: CartKey)
    ensures Rows(cart - {key}, key.session) == Rows(cart, key.session) - {key.product}
  {}

  lemma RowsCleared(cart: Cart, session: SessionId)
    ensures Rows(WithoutSession(cart, session), session) == map[]
  {}

  lemma ShownMatches(catalogue: Catalogue, cart: Cart, session: SessionId, rows: seq<CartRow>)
    requires CartInCatalogue(catalogue, cart) && Lists(catalogue, cart, session, rows)
    ensures Matches(ShownLines(rows), Rows(cart, session))
  {
    var lines := ShownLines(rows);
    forall i | 0 <= i < |lines|
      ensures lines[i].product in Rows(cart, session) && Rows(cart, session)[lines[i].product] == lines[i].quantity
    {
      assert IsRowOf(catalogue, cart, session, rows[i]);
    }
    forall product | product in Rows(cart, session) ensures Contains(lines, product) {
      var key := CartKey(session, product);
      var i :| 0 <= i < |rows| && rows[i].product == key.product;
      assert lines[i].product == product;
    }
  }

  /** What the next statement of a request of the session leaves behind. */
  ghost predicate StepsWell(cart: Cart, p': Process, r: Request, lines: ClientCart, shown: ClientCart,
                            session: SessionId)
  {
    if IsActive(p') then ProcessInStep(Rows(cart, session), p', r, lines)
    else AtRest(Rows(cart, session), if Succeeds(p') then Reduce(lines, ActionOf(r, shown)) else lines)
  }

  /** The rows that an accepted addition leaves are what the reducer will make of the client's lines. */
  lemma AdditionAgrees(cart: Cart, key: CartKey, quantity: int, lines: ClientCart)
    requires AtRest(Rows(cart, key.session), lines) && quantity > 0
    ensures AtRest(Rows(cart[key := if key in cart then cart[key] + quantity else quantity], key.session),
                   Reduce(lines, AddToCart(key.product, quantity)))
  {
    var rows := Rows(cart, key.session);
    AddMatches(lines, key.product, quantity, rows);
    RowsSet(cart, key, if key in cart then cart[key] + quantity else quantity);
    assert key in cart <==> key.product in rows;
    assert key in cart ==> rows[key.product] == cart[key];
  }

  lemma UpdateAgrees(cart: Cart, key: CartKey, quantity: int, lines: ClientCart)
    requires AtRest(Rows(cart, key.session), lines)
    ensures AtRest(Rows(if quantity <= 0 then cart - {key} else if key in cart then cart[key := quantity] else cart,
                        key.session),
                   Reduce(lines, UpdateCartItem(key.product, quantity)))
  {
    var rows := Rows(cart, key.session);
    UpdateMatchesExactlyIfOthersPositive(lines, key.product, quantity, rows);
    RowsSet(cart, key, quantity);
    RowsRemoved(cart, key);
    assert key in cart <==> key.product in rows;
  }

  lemma RowsHave(cart: Cart, key: CartKey)
    ensures key in cart <==> key.product in Rows(cart, key.session)
  {}

  lemma AcceptedAddition(cart: Cart, key: CartKey, after: Cart, r: Request, lines: ClientCart)
    requires r.Add? && r == Add(key.session, key.product, r.quantity) && r.quantity > 0
    requires AtRest(Rows(cart, key.session), lines)
    requires after == cart[key := if key in cart then cart[key] + r.quantity else r.quantity]
    ensures AtRest(Rows(after, key.session), Reduce(lines, ActionOf(r, [])))
  {
    hide AtRest, Rows;
    AdditionAgrees(cart, key, r.quantity, lines);
  }

  /** The handler's continuation after any cart write whose accepted outcome agrees with the reducer. */
  lemma WriteStepsWell(db: Db, p: Process, outcome: Outcome, r: Request, lines: ClientCart, shown: ClientCart)
    requires AtRest(Rows(db.cart, p.session), lines) && (r.Add? ==> r.quantity > 0)
    requires outcome.Accepted? ==> AtRest(Rows(outcome.db.cart, p.session), Reduce(lines, ActionOf(r, [])))
    ensures var (after, p') := Written(db, p, outcome); StepsWell(after.cart, p', r, lines, shown, p.session)
  {}

  /** Both branches of POST /api/cart, once the handler's SELECT still holds. */
  lemma AdditionStepsWell(db: Db, p: Process, outcome: Outcome, r: Request, lines: ClientCart, shown: ClientCart)
    requires p.AddUpdating? || p.AddInserting?
    requires Serves(p, r) && AtRest(Rows(db.cart, p.session), lines) && r.quantity > 0
    requires var key := CartKey(p.session, p.product);
             outcome.Accepted? ==>
               outcome.db.cart == db.cart[key := if key in db.cart then db.cart[key] + p.quantity else p.quantity]
    ensures var (after, p') := Written(db, p, outcome); StepsWell(after.cart, p', r, lines, shown, p.session)
  {
    if outcome.Accepted? {
      AcceptedAddition(db.cart, CartKey(p.session, p.product), outcome.db.cart, r, lines);
    }
    WriteStepsWell(db, p, outcome, r, lines, shown);
  }

  lemma AddStatementsStepWell(catalogue: Catalogue, db: Db, p: Process, e: Event, r: Request, lines: ClientCart)
    requires e.Execute? && Serves(p, r) && ProcessInStep(Rows(db.cart, p.session), p, r, lines)
    requires p.AddUpdating? || p.AddInserting?
    ensures var (after, p') := Statement(catalogue, db, p, e.rows, e.amount, e.cents);
            StepsWell(after.cart, p', r, lines, ShownLines(e.rows), p.session)
  {
    var key := CartKey(p.session, p.product);
    RowsHave(db.cart, key);
    if p.AddUpdating? {
      AdditionStepsWell(db, p, AddQuantity(db, key, p.quantity), r, lines, ShownLines(e.rows));
    } else {
      AdditionStepsWell(db, p, InsertCartItem(catalogue, db, key, p.quantity), r, lines, ShownLines(e.rows));
    }
  }

  lemma SetStatementStepsWell(catalogue: Catalogue, db: Db, p: Process, e: Event, r: Request, lines: ClientCart)
    requires e.Execute? && Serves(p, r) && ProcessInStep(Rows(db.cart, p.session), p, r, lines) && p.Setting?
    ensures var (after, p') := Statement(catalogue, db, p, e.rows, e.amount, e.cents);
            StepsWell(after.cart, p', r, lines, ShownLines(e.rows), p.session)
  {
    var key := CartKey(p.session, p.product);
    UpdateAgrees(db.cart, key, p.quantity, lines);
    var outcome := if p.quantity <= 0 then Accepted(DeleteCartItem(db, key)) else SetQuantity(db, key, p.quantity);
    WriteStepsWell(db, p, outcome, r, lines, ShownLines(e.rows));
  }

  lemma RemovingStepsWell(db: Db, p: Process, r: Request, lines: ClientCart, shown: ClientCart)
    requires Serves(p, r) && ProcessInStep(Rows(db.cart, p.session), p, r, lines) && p.Removing?
    ensures StepsWell(DeleteCartItem(db, CartKey(p.session, p.product)).cart, Rereading(p.session), r, lines, shown,
                      p.session)
  {
    RemoveMatches(lines, p.product, Rows(db.cart, p.session));
    RowsRemoved(db.cart, CartKey(p.session, p.product));
  }

  lemma RemovalsStepWell(catalogue: Catalogue, db: Db, p: Process, e: Event, r: Request, lines: ClientCart)
    requires e.Execute? && Serves(p, r) && ProcessInStep(Rows(db.cart, p.session), p, r, lines)
    requires p.Removing? || p.Clearing? || p.CartClearing?
    ensures var (after, p') := Statement(catalogue, db, p, e.rows, e.amount, e.cents);
            StepsWell(after.cart, p', r, lines, ShownLines(e.rows), p.session)
  {
    if p.Removing? {
      RemovingStepsWell(db, p, r, lines, ShownLines(e.rows));
    } else {
      RowsCleared(db.cart, p.session);
      assert AtRest(map[], Reduce(lines, ClearCart));
    }
  }

  lemma ReadsStepWell(catalogue: Catalogue, db: Db, p: Process, e: Event, r: Request, lines: ClientCart)
    requires e.Execute? && IsActive(p) && Serves(p, r) && ProcessInStep(Rows(db.cart, p.session), p, r, lines)
    requires !ChangesCart(p)
    requires p.OrderReading? ==> p.id in db.orders
    requires p.Showing? ==> Matches(ShownLines(e.rows), Rows(db.cart, p.session))
    ensures var (after, p') := Statement(catalogue, db, p, e.rows, e.amount, e.cents);
            StepsWell(after.cart, p', r, lines, ShownLines(e.rows), p.session)
  {
    hide Matches, PositiveRows, Lists;
    StatementFrame(catalogue, db, p, e.rows, e.amount, e.cents);
  }

  lemma OwnStatementsStepWell(catalogue: Catalogue, db: Db, p: Process, e: Event, r: Request, lines: ClientCart)
    requires e.Execute? && IsActive(p) && Serves(p, r) && ProcessInStep(Rows(db.cart, p.session), p, r, lines)
    requires CartInCatalogue(catalogue, db.cart) && Possible(catalogue, db, p, e.rows, e.amount, e.cents)
    requires p.OrderReading? ==> p.id in db.orders
    ensures var (after, p') := Statement(catalogue, db, p, e.rows, e.amount, e.cents);
            StepsWell(after.cart, p', r, lines, ShownLines(e.rows), p.session)
  {
    if p.AddUpdating? || p.AddInserting? {
      AddStatementsStepWell(catalogue, db, p, e, r, lines);
    } else if p.Setting? {
      SetStatementStepsWell(catalogue, db, p, e, r, lines);
    } else if ChangesCart(p) {
      RemovalsStepWell(catalogue, db, p, e, r, lines);
    } else {
      if p.Showing? {
        ShownMatches(catalogue, db.cart, p.session, e.rows);
      }
      ReadsStepWell(catalogue, db, p, e, r, lines);
    }
  }

  lemma OtherSessionsKeepRows(catalogue: Catalogue, db: Db, p: Process, e: Event, session: SessionId)
    requires e.Execute? && p.session != session
    ensures Rows(Statement(catalogue, db, p, e.rows, e.amount, e.cents).0.cart, session) == Rows(db.cart, session)
  {
    OtherSessionsKeepLines(catalogue, db, p, e, session);
    var cart := Statement(catalogue, db, p, e.rows, e.amount, e.cents).0.cart;
    forall product ensures product in Rows(cart, session) <==> product in Rows(db.cart, session) {
      assert CartKey(session, product) in cart <==> CartKey(session, product) in db.cart;
    }
  }

  /** When the session's only active request takes a step, no other request of the session is active. */
  lemma OnlyOneMoves(catalogue: Catalogue, s: State, e: Event, session: SessionId)
    requires Enabled(catalogue, s, e) && e.Execute? && s.processes[e.pid].session == session
    requires AtMostOne(s.processes, session)
    ensures var processes := Apply(catalogue, s, e).processes;
            forall pid :: pid in processes && ActiveFor(processes[pid], session) ==> pid == e.pid
    ensures Busy(Apply(catalogue, s, e), session) <==> IsActive(Apply(catalogue, s, e).processes[e.pid])
  {
    assert ActiveFor(s.processes[e.pid], session);
    StatementFrame(catalogue, s.db, s.processes[e.pid], e.rows, e.amount, e.cents);
    var s' := Apply(catalogue, s, e);
    if IsActive(s'.processes[e.pid]) {
      assert ActiveFor(s'.processes[e.pid], session);
    }
  }

  lemma OwnStepStaysInStep(catalogue: Catalogue, s: State, e: Event, requests: map<Pid, Request>, lines: ClientCart,
                           session: SessionId)
    requires Enabled(catalogue, s, e) && e.Execute? && s.processes[e.pid].session == session
    requires AllServe(s.processes, requests) && CartInCatalogue(catalogue, s.db.cart) && AtMostOne(s.processes, session)
    requires s.processes[e.pid].OrderReading? ==> s.processes[e.pid].id in s.db.orders
    requires InStep(s, requests, lines, session)
    ensures InStep(Apply(catalogue, s, e), requests, NextReplica(catalogue, s, e, session, requests, lines), session)
  {
    var p := s.processes[e.pid];
    OwnStatementsStepWell(catalogue, s.db, p, e, requests[e.pid], lines);
    OnlyOneMoves(catalogue, s, e, session);
  }

  /** Activity of the session after a step in which only a process outside it, or a new one, has moved. */
  lemma OthersKeepBusy(processes: map<Pid, Process>, processes': map<Pid, Process>, pid: Pid, session: SessionId)
    requires pid in processes' && processes' == processes[pid := processes'[pid]]
    requires pid in processes ==> processes[pid].session != session && processes'[pid].session != session
    ensures (exists q :: q in processes && ActiveFor(processes[q], session)) ==>
              exists q :: q in processes' && ActiveFor(processes'[q], session)
  {
    if q :| q in processes && ActiveFor(processes[q], session) {
      assert q in processes' && ActiveFor(processes'[q], session);
    }
  }

  /** A step of another session, or the beginning of a request. */
  lemma OtherStepStaysInStep(catalogue: Catalogue, s: State, e: Event, requests: map<Pid, Request>, lines: ClientCart,
                             session: SessionId)
    requires Enabled(catalogue, s, e) && IsSoleStep(s, e, session)
    requires !e.Begin? ==> s.processes[e.pid].session != session
    requires AllServe(s.processes, requests) && InStep(s, requests, lines, session)
    ensures InStep(Apply(catalogue, s, e), if e.Begin? then requests[e.pid := e.request] else requests,
                   NextReplica(catalogue, s, e, session, requests, lines), session)
  {
    hide Matches, PositiveRows, Possible, Serves, Reduce, ActionOf, Rows;
    var s' := Apply(catalogue, s, e);
    if e.Execute? {
      OtherSessionsKeepRows(catalogue, s.db, s.processes[e.pid], e, session);
      StatementFrame(catalogue, s.db, s.processes[e.pid], e.rows, e.amount, e.cents);
    }
    hide Statement;
    OthersKeepBusy(s.processes, s'.processes, e.pid, session);
  }

  /** A request that fails before its change went through leaves both carts alone. */
  lemma OwnRefusalStaysInStep(catalogue: Catalogue, s: State, e: Event, requests: map<Pid, Request>, lines: ClientCart,
                              session: SessionId)
    requires Enabled(catalogue, s, e) && IsSoleStep(s, e, session) && e.Refuse? && s.processes[e.pid].session == session
    requires AllServe(s.processes, requests) && AtMostOne(s.processes, session) && InStep(s, requests, lines, session)
    ensures InStep(Apply(catalogue, s, e), requests, NextReplica(catalogue, s, e, session, requests, lines), session)
  {
    hide Matches, PositiveRows, Reduce, Serves;
    assert ActiveFor(s.processes[e.pid], session);
    assert ProcessInStep(Rows(s.db.cart, session), s.processes[e.pid], requests[e.pid], lines);
  }

  lemma HolderHasOrder(s: State, created: map<OrderId, Creation>, pid: Pid)
    requires Owned(s, created) && pid in s.processes
    ensures HasOrder(s.processes[pid]) ==> s.processes[pid].id in s.db.orders
  {
    assert ProcessOwns(s.db, created, pid, s.processes[pid]);
  }

  /**
   From any moment at which the client waits for nothing and its cart agrees with the session's rows, whatever happened
   before, it stays in step at every statement for as long as the session is its own.
   */
  lemma {:induction false} ReplicaStaysInStep(catalogue: Catalogue, es: seq<Event>, n: nat, lines: ClientCart,
                                              session: SessionId)
    requires IsRun(catalogue, es) && n <= |es| && IsSoleClient(catalogue, es, n, session)
    requires !Busy(After(catalogue, es[..n]), session)
    requires AtRest(Rows(After(catalogue, es[..n]).db.cart, session), lines)
    ensures InStep(After(catalogue, es), Requests(es), Replica(catalogue, es, n, lines, session), session)
    ensures AtMostOne(After(catalogue, es).processes, session)
    decreases |es|
  {
    if |es| == n {
      assert es[..n] == es;
      hide AtRest, ProcessInStep, Rows, IsRun, After;
      assert forall pid :: pid in After(catalogue, es).processes ==>
               !ActiveFor(After(catalogue, es).processes[pid], session);
    } else {
      var before, e := es[..|es| - 1], es[|es| - 1];
      assert before[..n] == es[..n];
      ReplicaStaysInStep(catalogue, before, n, lines, session);
      ProcessesServeTheirRequests(catalogue, before);
      CartStaysInCatalogue(catalogue, before);
      OrdersAreOwned(catalogue, before);
      var s, held := After(catalogue, before), Replica(catalogue, before, n, lines, session);
      assert Enabled(catalogue, s, e) && IsSoleStep(s, e, session);
      hide InStep, AtRest, AtMostOne, Busy, Apply, NextReplica, Possible, Statement, AllServe, Owned, CartInCatalogue;
      StepKeepsAtMostOne(catalogue, s, e, session);
      if e.Execute? && s.processes[e.pid].session == session {
        HolderHasOrder(s, Creations(catalogue, before), e.pid);
        OwnStepStaysInStep(catalogue, s, e, Requests(before), held, session);
      } else if e.Refuse? && s.processes[e.pid].session == session {
        OwnRefusalStaysInStep(catalogue, s, e, Requests(before), held, session);
      } else {
        OtherStepStaysInStep(catalogue, s, e, Requests(before), held, session);
      }
    }
  }

  /**
   Whenever the client is not waiting for an answer, its cart is exactly the session's rows in the database, with
   no product twice and every quantity positive: after successes, missing products and violated constraints alike.
   */
  lemma ReplicaEqualsServerCart(catalogue: Catalogue, es: seq<Event>, n: nat, lines: ClientCart, session: SessionId)
    requires IsRun(catalogue, es) && n <= |es| && IsSoleClient(catalogue, es, n, session)
    requires !Busy(After(catalogue, es[..n]), session)
    requires AtRest(Rows(After(catalogue, es[..n]).db.cart, session), lines)
    requires !Busy(After(catalogue, es), session)
    ensures var held := Replica(catalogue, es, n, lines, session);
            AsMap(held) == Rows(After(catalogue, es).db.cart, session) && UniqueIds(held) && Positive(held)
  {
    ReplicaStaysInStep(catalogue, es, n, lines, session);
    hide IsRun, After, Replica, IsSoleClient, Busy;
    var held := Replica(catalogue, es, n, lines, session);
    MatchesMeansEqual(held, Rows(After(catalogue, es).db.cart, session));
  }

  /**
   Why the client must not lose an answer: if the SELECT behind an answer is refused after the change went through,
   the client keeps its old cart, and agrees with the server only where the missed action would have changed nothing.
   */
  lemma LostAnswerBreaksAgreement(catalogue: Catalogue, es: seq<Event>, n: nat, lines: ClientCart, pid: Pid,
                                  session: SessionId)
    requires IsRun(catalogue, es) && n <= |es| && IsSoleClient(catalogue, es, n, session)
    requires !Busy(After(catalogue, es[..n]), session)
    requires AtRest(Rows(After(catalogue, es[..n]).db.cart, session), lines)
    requires pid in After(catalogue, es).processes && pid in Requests(es)
    requires ActiveFor(After(catalogue, es).processes[pid], session) && Pending(After(catalogue, es).processes[pid])
    ensures var held, lost := Replica(catalogue, es, n, lines, session), es + [Refuse(pid)];
            IsRun(catalogue, lost) &&
            (AsMap(Replica(catalogue, lost, n, lines, session)) == Rows(After(catalogue, lost).db.cart, session)
             <==> AsMap(Reduce(held, ActionOf(Requests(es)[pid], []))) == AsMap(held))
  {
    var lost := es + [Refuse(pid)];
    assert lost[..|es|] == es;
    ReplicaStaysInStep(catalogue, es, n, lines, session);
    var rows := Rows(After(catalogue, es).db.cart, session);
    assert ProcessInStep(rows, After(catalogue, es).processes[pid], Requests(es)[pid],
                         Replica(catalogue, es, n, lines, session));
    hide IsSoleClient, AtRest, InStep, Matches, UniqueIds, Reduce, Positive, AtMostOne, Busy;
    MatchesMeansEqual(Reduce(Replica(catalogue, es, n, lines, session), ActionOf(Requests(es)[pid], [])), rows);
  }
}
