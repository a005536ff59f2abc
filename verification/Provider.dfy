/**
 The provider's actions as the client writes them (client/src/context/AppContext.tsx:96-165): call the server, and if it
 answers with success, dispatch. The cart they leave behind is the replica of ClientReplica, so it equals the session's
 rows in the server's tables.
 */
module Provider {
  import opened Tables
  import opened ShopMachine
  import opened Conservation
  import opened ClientReplica
  import Shop

  ghost predicate NoneBegins(es: seq<Event>, n: nat, session: SessionId) {
    forall k :: n <= k < |es| && es[k].Begin? ==> es[k].request.session != session
  }

  /** Request pid began at event n, and no other request of its session has begun since. */
  ghost predicate IsOnlyRequest(es: seq<Event>, n: nat, pid: Pid, r: Request) {
    n < |es| && es[n] == Begin(pid, r) && NoneBegins(es, n + 1, r.session)
  }

  /** Only request pid of the session may be unanswered. */
  ghost predicate OnlyActive(processes: map<Pid, Process>, pid: Pid, session: SessionId) {
    forall q :: q in processes && ActiveFor(processes[q], session) ==> q == pid
  }

  /** What one more event does to a client that waits for request pid. */
  lemma OneMoreEvent(catalogue: Catalogue, s: State, e: Event, pid: Pid, r: Request, requests: map<Pid, Request>,
                     lines: ClientCart)
    requires Enabled(catalogue, s, e) && OnlyActive(s.processes, pid, r.session) && AllServe(s.processes, requests)
    requires pid in requests && requests[pid] == r && s.processes[pid].session == r.session
    requires e.Begin? ==> e.request.session != r.session
    ensures var s' := Apply(catalogue, s, e);
            && OnlyActive(s'.processes, pid, r.session)
            && pid in s'.processes && s'.processes[pid].session == r.session
            && (!r.Show? || !Succeeds(s'.processes[pid]) ==>
                  NextReplica(catalogue, s, e, r.session, requests, lines) ==
                  if IsActive(s.processes[pid]) && Succeeds(s'.processes[pid]) then Reduce(lines, ActionOf(r, []))
                  else lines)
            && (!IsActive(s.processes[pid]) ==> s'.processes[pid] == s.processes[pid])
  {
    hide Serves;
    if e.Execute? {
      StatementFrame(catalogue, s.db, s.processes[e.pid], e.rows, e.amount, e.cents);
    }
  }

  lemma OnlyRequestBefore(es: seq<Event>, n: nat, pid: Pid, r: Request)
    requires IsOnlyRequest(es, n, pid, r) && n < |es| - 1
    ensures IsOnlyRequest(es[..|es| - 1], n, pid, r)
  {}

  /**
   From the beginning of a request on, a client that waits for it dispatches exactly once, when it is answered with
   success, and not at all if it fails, whatever other sessions do. (What GET /api/cart dispatches is its answer.)
   */
  lemma {:induction false} OneRequestOneAction(catalogue: Catalogue, es: seq<Event>, m: nat, lines: ClientCart, n: nat,
                                               pid: Pid, r: Request)
    requires IsRun(catalogue, es) && m <= n && IsOnlyRequest(es, n, pid, r)
    requires !Busy(After(catalogue, es[..n]), r.session)
    ensures var s := After(catalogue, es);
            && pid in s.processes && pid in Requests(es) && Requests(es)[pid] == r
            && s.processes[pid].session == r.session
            && OnlyActive(s.processes, pid, r.session)
            && (!r.Show? || !Succeeds(s.processes[pid]) ==>
                  Replica(catalogue, es, m, lines, r.session) ==
                  if Succeeds(s.processes[pid])
                  then Reduce(Replica(catalogue, es[..n], m, lines, r.session), ActionOf(r, []))
                  else Replica(catalogue, es[..n], m, lines, r.session))
    decreases |es|
  {
    hide Possible, Statement;
    var before, e := es[..|es| - 1], es[|es| - 1];
    ProcessesServeTheirRequests(catalogue, before);
    if n == |es| - 1 {
      assert before == es[..n];
    } else {
      assert before[..n] == es[..n];
      OnlyRequestBefore(es, n, pid, r);
      OneRequestOneAction(catalogue, before, m, lines, n, pid, r);
      hide Apply, Enabled, OnlyActive, AllServe, NextReplica, Busy, Reduce, ActionOf;
      OneMoreEvent(catalogue, After(catalogue, before), e, pid, r, Requests(before),
                   Replica(catalogue, before, m, lines, r.session));
    }
  }

  /** response.ok */
  predicate IsSuccess(answer: Answer) {
    answer == Okay || answer == Created
  }

  /** The client's cart is exactly the session's rows, without duplicates and with positive quantities. */
  predicate IsSettled(cart: ClientCart, rows: map<ProductId, int>) {
    AsMap(cart) == rows && UniqueIds(cart) && Positive(cart)
  }

  /**
   After k events the client, opened after m events with an empty cart, waited for nothing and agreed with the server.
   */
  ghost predicate AgreedAt(catalogue: Catalogue, es: seq<Event>, m: nat, k: nat, session: SessionId)
    requires m <= k <= |es|
  {
    && !Busy(After(catalogue, es[..k]), session)
    && AtRest(Rows(After(catalogue, es[..k]).db.cart, session), Replica(catalogue, es[..k], m, [], session))
  }

  /** If it ever agreed, and the session has been its own since, it agrees now. */
  ghost predicate StillAgrees(catalogue: Catalogue, es: seq<Event>, m: nat, session: SessionId)
    requires m <= |es|
  {
    forall k {:trigger AgreedAt(catalogue, es, m, k, session)} ::
      m <= k <= |es| && AgreedAt(catalogue, es, m, k, session) && IsSoleClient(catalogue, es, k, session) ==>
        IsSettled(Replica(catalogue, es, m, [], session), Rows(After(catalogue, es).db.cart, session))
  }

  lemma IdleClientStillAgrees(catalogue: Catalogue, es: seq<Event>, m: nat, session: SessionId)
    requires IsRun(catalogue, es) && m <= |es| && !Busy(After(catalogue, es), session)
    ensures StillAgrees(catalogue, es, m, session)
  {
    forall k | m <= k <= |es| && AgreedAt(catalogue, es, m, k, session) && IsSoleClient(catalogue, es, k, session)
      ensures IsSettled(Replica(catalogue, es, m, [], session), Rows(After(catalogue, es).db.cart, session))
    {
      ReplicaEqualsServerCart(catalogue, es, k, Replica(catalogue, es[..k], m, [], session), session);
      ReplicaGoesOn(catalogue, es, m, k, [], session);
    }
  }

  /** After a successful load the client holds the answer's rows, whatever it held and whatever happened before. */
  lemma LoadedCart(catalogue: Catalogue, es: seq<Event>, m: nat, lines: ClientCart, n: nat, pid: Pid,
                   session: SessionId, rows: seq<CartRow>)
    requires IsRun(catalogue, es) && m <= n && IsOnlyRequest(es, n, pid, Show(session))
    requires !Busy(After(catalogue, es[..n]), session)
    requires es[|es| - 1] == Execute(pid, rows, 0.0, 0)
    requires pid in After(catalogue, es).processes && Succeeds(After(catalogue, es).processes[pid])
    ensures Replica(catalogue, es, m, lines, session) == ShownLines(rows)
  {
    var before := es[..|es| - 1];
    assert n < |before| by {
      assert es[n] != es[|es| - 1];
    }
    assert before[..n] == es[..n];
    assert IsOnlyRequest(before, n, pid, Show(session));
    OneRequestOneAction(catalogue, before, m, lines, n, pid, Show(session));
    hide Possible, Busy, OnlyActive, Statement, IsOnlyRequest, NoneBegins;
  }

  /** And those are the session's rows: a load makes the two carts equal, whatever came before. */
  lemma LoadedCartEqualsServerCart(catalogue: Catalogue, es: seq<Event>, session: SessionId, rows: seq<CartRow>)
    requires IsRun(catalogue, es) && Lists(catalogue, After(catalogue, es).db.cart, session, rows)
    ensures AsMap(ShownLines(rows)) == Rows(After(catalogue, es).db.cart, session) && UniqueIds(ShownLines(rows))
  {
    CartStaysInCatalogue(catalogue, es);
    ShownMatches(catalogue, After(catalogue, es).db.cart, session, rows);
    MatchesMeansEqual(ShownLines(rows), Rows(After(catalogue, es).db.cart, session));
  }

  /** The replica after a request of the client's own, and its agreement; rows is the answer of GET /api/cart. */
  lemma AfterAnswer(catalogue: Catalogue, before: seq<Event>, es: seq<Event>, m: nat, pid: Pid, r: Request,
                    answer: Answer, rows: seq<CartRow>)
    requires IsRun(catalogue, es) && m <= |before| && before + [Begin(pid, r)] <= es
    requires !Busy(After(catalogue, before), r.session)
    requires var s := After(catalogue, es);
             pid in s.processes && s.processes[pid].Done? && s.processes[pid].answer == answer
    requires r.Show? ==> answer != Created && (answer == Okay ==> es[|es| - 1] == Execute(pid, rows, 0.0, 0))
    ensures NoneBegins(es, |before| + 1, r.session) ==>
              && !Busy(After(catalogue, es), r.session)
              && Replica(catalogue, es, m, [], r.session) ==
                 (if IsSuccess(answer)
                  then Reduce(Replica(catalogue, before, m, [], r.session), ActionOf(r, ShownLines(rows)))
                  else Replica(catalogue, before, m, [], r.session))
              && StillAgrees(catalogue, es, m, r.session)
  {
    if NoneBegins(es, |before| + 1, r.session) {
      assert es[..|before|] == before && es[|before|] == Begin(pid, r);
      OneRequestOneAction(catalogue, es, m, [], |before|, pid, r);
      if r.Show? && answer == Okay {
        LoadedCart(catalogue, es, m, [], |before|, pid, r.session, rows);
      }
      assert !Busy(After(catalogue, es), r.session);
      hide StillAgrees, Replica, OnlyActive;
      IdleClientStillAgrees(catalogue, es, m, r.session);
    }
  }

  datatype OrderSummary = OrderSummary(id: OrderId, total: int, items: seq<ItemRow>)

  class AppProvider {
    const server: Shop.Server
    const session: SessionId
    ghost const since: nat  // how much had happened at the server when the client opened
    var cart: ClientCart
    var orders: seq<OrderSummary>

    /** The cart is the replica of everything that has happened at the server since the client opened. */
    ghost predicate Valid()
      reads this, server
    {
      server.Valid() && since <= |server.log| && cart == Replica(server.catalogue, server.log, since, [], session)
    }

    /** A client opens with an empty cart, on a server with any history. */
    constructor (server: Shop.Server, session: SessionId)
      requires server.Valid()
      ensures this.server == server && this.session == session && Valid() && orders == []
    {
      this.server, this.session, since := server, session, |server.log|;
      cart, orders := [], [];
    }

    /** Since the call nobody else has used the session. */
    twostate predicate Undisturbed()
      reads this, server
    {
      NoneBegins(server.log, old(|server.log|) + 1, session)
    }

    /**
     The client has its answer; if it ever agreed and the session has been its own since, the two carts are the same.
     */
    ghost predicate Agrees()
      reads this, server
    {
      !Busy(server.Now(), session) && since <= |server.log| && StillAgrees(server.catalogue, server.log, since, session)
    }

    method LoadCart(outside: Shop.Outside) returns (answer: Answer, ghost pid: Pid)
      requires Valid() && Shop.IsFair(server.catalogue, outside) && !Busy(server.Now(), session)
      modifies this, server
      ensures server.Answered(pid, Show(session), answer) && (Undisturbed() ==> Valid() && Agrees())
      ensures answer == Okay ==> AsMap(cart) == Rows(server.cart, session) && UniqueIds(cart)
      ensures (answer != Okay ==> cart == old(cart)) && orders == old(orders)
    {
      hide IsRun, After, Replica, StillAgrees, Busy, Rows, UniqueIds, Shop.IsFair, Lists, NoneBegins;
      ghost var before := server.log;
      var number, rows;
      number, answer, rows := server.GetCart(outside, session);
      pid := number;
      if IsSuccess(answer) {
        cart := ShownLines(rows);
        LoadedCartEqualsServerCart(server.catalogue, server.log, session, rows);
      }
      AfterAnswer(server.catalogue, before, server.log, since, pid, Show(session), answer, rows);
    }

    method AddToCart(outside: Shop.Outside, product: ProductId, quantity: int)
      returns (answer: Answer, ghost pid: Pid)
      requires Valid() && Shop.IsFair(server.catalogue, outside) && !Busy(server.Now(), session)
      modifies this, server
      ensures server.Answered(pid, Add(session, product, quantity), answer) && (Undisturbed() ==> Valid() && Agrees())
      ensures cart == if IsSuccess(answer) then Reduce(old(cart), Action.AddToCart(product, quantity)) else old(cart)
      ensures orders == old(orders)
    {
      hide IsRun, After, Replica, StillAgrees, Busy, Rows, Reduce, Shop.IsFair, Lists, NoneBegins;
      ghost var before := server.log;
      var number, returned;
      number, answer, returned := server.PostCart(outside, session, product, quantity);
      pid := number;
      if IsSuccess(answer) {
        cart := Reduce(cart, Action.AddToCart(product, quantity));
      }
      AfterAnswer(server.catalogue, before, server.log, since, pid, Add(session, product, quantity), answer, []);
    }

    method UpdateCartItem(outside: Shop.Outside, product: ProductId, quantity: int)
      returns (answer: Answer, ghost pid: Pid)
      requires Valid() && Shop.IsFair(server.catalogue, outside) && !Busy(server.Now(), session)
      modifies this, server
      ensures server.Answered(pid, Update(session, product, quantity), answer)
      ensures Undisturbed() ==> Valid() && Agrees()
      ensures cart ==
              if IsSuccess(answer) then Reduce(old(cart), Action.UpdateCartItem(product, quantity)) else old(cart)
      ensures orders == old(orders)
    {
      hide IsRun, After, Replica, StillAgrees, Busy, Rows, Reduce, Shop.IsFair, Lists, NoneBegins;
      ghost var before := server.log;
      var number, returned;
      number, answer, returned := server.PutCartItem(outside, session, product, quantity);
      pid := number;
      if IsSuccess(answer) {
        cart := Reduce(cart, Action.UpdateCartItem(product, quantity));
      }
      AfterAnswer(server.catalogue, before, server.log, since, pid, Update(session, product, quantity), answer, []);
    }

    method RemoveFromCart(outside: Shop.Outside, product: ProductId)
      returns (answer: Answer, ghost pid: Pid)
      requires Valid() && Shop.IsFair(server.catalogue, outside) && !Busy(server.Now(), session)
      modifies this, server
      ensures server.Answered(pid, Remove(session, product), answer) && (Undisturbed() ==> Valid() && Agrees())
      ensures cart == if IsSuccess(answer) then Reduce(old(cart), Action.RemoveFromCart(product)) else old(cart)
      ensures orders == old(orders)
    {
      hide IsRun, After, Replica, StillAgrees, Busy, Rows, Reduce, Shop.IsFair, Lists, NoneBegins;
      ghost var before := server.log;
      var number, returned;
      number, answer, returned := server.DeleteCartItem(outside, session, product);
      pid := number;
      if IsSuccess(answer) {
        cart := Reduce(cart, Action.RemoveFromCart(product));
      }
      AfterAnswer(server.catalogue, before, server.log, since, pid, Remove(session, product), answer, []);
    }

    method ClearCart(outside: Shop.Outside)
      returns (answer: Answer, ghost pid: Pid)
      requires Valid() && Shop.IsFair(server.catalogue, outside) && !Busy(server.Now(), session)
      modifies this, server
      ensures server.Answered(pid, Clear(session), answer) && (Undisturbed() ==> Valid() && Agrees())
      ensures cart == if IsSuccess(answer) then Reduce(old(cart), Action.ClearCart) else old(cart)
      ensures orders == old(orders)
    {
      hide IsRun, After, Replica, StillAgrees, Busy, Rows, Reduce, Shop.IsFair, Lists, NoneBegins;
      ghost var before := server.log;
      var number;
      number, answer := server.DeleteCart(outside, session);
      pid := number;
      if IsSuccess(answer) {
        cart := Reduce(cart, Action.ClearCart);
      }
      AfterAnswer(server.catalogue, before, server.log, since, pid, Clear(session), answer, []);
    }

    /** An order that the client keeps is whole: one item row for each cart row, and its total is exact. */
    method CreateOrder(outside: Shop.Outside)
      returns (answer: Answer, ghost pid: Pid, ghost rows: seq<CartRow>)
      requires Valid() && Shop.IsFair(server.catalogue, outside) && !Busy(server.Now(), session)
      modifies this, server
      ensures server.Answered(pid, Checkout(session), answer) && (Undisturbed() ==> Valid() && Agrees())
      ensures cart == if IsSuccess(answer) then [] else old(cart)
      ensures IsSuccess(answer) ==>
                |orders| == |old(orders)| + 1 && orders[..|old(orders)|] == old(orders) &&
                var order := orders[|old(orders)|];
                server.IsWholeOrder(session, rows, order.id, order.total, order.items)
      ensures !IsSuccess(answer) ==> orders == old(orders)
    {
      assert forall lines :: Reduce(lines, Action.ClearCart) == [];
      hide IsRun, After, Replica, StillAgrees, Busy, Rows, Reduce, Shop.IsFair, Lists, NoneBegins;
      ghost var before := server.log;
      var number, snapshot, id, total, found;
      number, answer, snapshot, id, total, found := server.PostOrder(outside, session);
      pid, rows := number, snapshot;
      if IsSuccess(answer) {
        orders := orders + [OrderSummary(id, total, found)];
        cart := Reduce(cart, Action.ClearCart);
      }
      AfterAnswer(server.catalogue, before, server.log, since, pid, Checkout(session), answer, []);
    }
  }
}
