/**
 Short runs of the shop in which something goes wrong: units lost to an overlapping request, and a client that no longer
 agrees with the server. (server/src/server.js:152-439, client/src/context/AppContext.tsx:43-51)
 */
module ShopSamples {
  import opened Tables
  import opened ShopMachine
  import opened OrderOwnership
  import opened Conservation
  import opened ClientReplica
  import Decimal
  import Money
  import Shop

  const CATALOGUE: Catalogue := map["p" := Product("pen", 100)]
  const KEY := CartKey("s", "p")

  function Pen(quantity: int): CartRow {
    CartRow("p", quantity, "pen", 100)
  }

  function Plain(pid: Pid): Event {
    Execute(pid, [], 0.0, 0)
  }

  /** One more event, and what it does to the account and to a client that started with an empty cart. */
  lemma Next(es: seq<Event>, e: Event)
    requires IsRun(CATALOGUE, es) && Enabled(CATALOGUE, After(CATALOGUE, es), e)
    ensures IsRun(CATALOGUE, es + [e]) && After(CATALOGUE, es + [e]) == Apply(CATALOGUE, After(CATALOGUE, es), e)
    ensures Lost(CATALOGUE, es + [e], KEY) == Lost(CATALOGUE, es, KEY) + Missed(After(CATALOGUE, es), e, KEY)
    ensures Replica(CATALOGUE, es + [e], 0, [], "s") ==
            NextReplica(CATALOGUE, After(CATALOGUE, es), e, "s", Requests(es), Replica(CATALOGUE, es, 0, [], "s"))
    ensures Requests(es + [e]) == if e.Begin? then Requests(es)[e.pid := e.request] else Requests(es)
  {
    Shop.OneMoreEvent(CATALOGUE, es, e);
    assert (es + [e])[..|es|] == es;
  }

  lemma PenIsListed(quantity: int)
    ensures Lists(CATALOGUE, map[KEY := quantity], "s", [Pen(quantity)])
  {
    assert [Pen(quantity)][0].product == "p";
  }

  /** POST /api/cart of a first line, up to and with its INSERT. */
  lemma Added(quantity: int) returns (es: seq<Event>)
    requires IsInteger(quantity)
    ensures IsRun(CATALOGUE, es) && Lost(CATALOGUE, es, KEY) == 0
    ensures Replica(CATALOGUE, es, 0, [], "s") == [] && Requests(es) == map[0 := Add("s", "p", quantity)]
    ensures After(CATALOGUE, es) == State(Db(map[KEY := quantity], map[], []), map[0 := Rereading("s")])
  {
    var tables := Db(map[], map[], []);
    es := [];
    assert After(CATALOGUE, es) == State(tables, map[]);
    var e := Begin(0, Add("s", "p", quantity));
    Next(es, e);
    es := es + [e];
    assert After(CATALOGUE, es) == State(tables, map[0 := AddChecking("s", "p", quantity)]);
    hide IsRun, After, Replica, Lost, Requests;
    Next(es, Plain(0));
    es := es + [Plain(0)];
    assert After(CATALOGUE, es) == State(tables, map[0 := AddLooking("s", "p", quantity)]);
    Next(es, Plain(0));
    es := es + [Plain(0)];
    assert After(CATALOGUE, es) == State(tables, map[0 := AddInserting("s", "p", quantity)]);
    Next(es, Plain(0));
    es := es + [Plain(0)];
  }

  // ----- an outside in which nobody else runs and nothing is rounded

  function RowOf(catalogue: Catalogue, cart: Cart, key: CartKey): CartRow
    requires key in cart && key.product in catalogue
  {
    CartRow(key.product, cart[key], catalogue[key.product].name, catalogue[key.product].price)
  }

  lemma ListsOneMore(catalogue: Catalogue, cart: Cart, session: SessionId, key: CartKey, rest: seq<CartRow>)
    requires key in cart && Lists(catalogue, cart - {key}, session, rest)
    ensures
      if key.session != session || key.product !in catalogue then Lists(catalogue, cart, session, rest)
      else Lists(catalogue, cart, session, rest + [RowOf(catalogue, cart, key)])
  {
    if key.session == session && key.product in catalogue {
      var rows := rest + [RowOf(catalogue, cart, key)];
      forall other | other in cart && other.session == session && other.product in catalogue
        ensures exists i :: 0 <= i < |rows| && rows[i].product == other.product
      {
        if other == key {
          assert rows[|rest|].product == other.product;
        } else {
          var i :| 0 <= i < |rest| && rest[i].product == other.product;
          assert rows[i] == rest[i];
        }
      }
    }
  }

  /** A cart's rows, in some order. */
  ghost function Listing(catalogue: Catalogue, cart: Cart, session: SessionId): (rows: seq<CartRow>)
    ensures Lists(catalogue, cart, session, rows)
    decreases cart.Keys
  {
    if cart == map[] then []
    else
      var key :| key in cart;
      var rest := Listing(catalogue, cart - {key}, session);
      ListsOneMore(catalogue, cart, session, key, rest);
      if key.session == session && key.product in catalogue then rest + [RowOf(catalogue, cart, key)] else rest
  }

  ghost function Alone(catalogue: Catalogue): (outside: Shop.Outside)
    ensures Shop.IsFair(catalogue, outside)
  {
    var outside := Shop.Outside((_, _) => [], _ => false,
                                (log, session) => if IsRun(catalogue, log) then
                                    Listing(catalogue, After(catalogue, log).db.cart, session) else [],
                                x => x, x => x);
    assert forall log: seq<Event> :: log + [] == log;
    outside
  }

  // ----- a client that loses an answer

  lemma RowsOfPen(quantity: int)
    ensures Rows(map[KEY := quantity], "s") == map["p" := quantity]
  {
    assert KEY in map[KEY := quantity];
  }

  /**
   The INSERT has gone through, the SELECT behind the answer is refused: the row is in the table and not at the client.
   */
  lemma LostAnswerDisagrees() returns (es: seq<Event>)
    ensures IsRun(CATALOGUE, es) && !Busy(After(CATALOGUE, es), "s")
    ensures AsMap(Replica(CATALOGUE, es, 0, [], "s")) == map[]
    ensures Rows(After(CATALOGUE, es).db.cart, "s") == map["p" := 1]
  {
    hide IsRun, After, Replica, Lost, Requests, Rows, Reduce, Missed;
    es := Added(1);
    RowsOfPen(1);
    Next(es, Refuse(0));
    es := es + [Refuse(0)];
    assert After(CATALOGUE, es) == State(Db(map[KEY := 1], map[], []), map[0 := Done("s", Failed, true)]);
  }

  // ----- a client that has added nothing

  /** A line of quantity 0, added and answered: the client has it too. */
  lemma AddedNothing() returns (es: seq<Event>)
    ensures IsRun(CATALOGUE, es) && Replica(CATALOGUE, es, 0, [], "s") == [CartLine("p", 0)]
    ensures Requests(es) == map[0 := Add("s", "p", 0)]
    ensures After(CATALOGUE, es) == State(Db(map[KEY := 0], map[], []), map[0 := Done("s", Okay, true)])
  {
    hide IsRun, After, Replica, Lost, Requests, Lists;
    es := Added(0);
    PenIsListed(0);
    Next(es, Execute(0, [Pen(0)], 0.0, 0));
    es := es + [Execute(0, [Pen(0)], 0.0, 0)];
  }

  lemma SecondRequestBegun() returns (es: seq<Event>)
    ensures IsRun(CATALOGUE, es) && Replica(CATALOGUE, es, 0, [], "s") == [CartLine("p", 0)]
    ensures Requests(es) == map[0 := Add("s", "p", 0), 1 := Update("s", "q", 5)]
    ensures After(CATALOGUE, es) ==
            State(Db(map[KEY := 0], map[], []), map[0 := Done("s", Okay, true), 1 := Setting("s", "q", 5)])
  {
    hide IsRun, After, Replica, Lost, Requests, Reduce;
    es := AddedNothing();
    var e := Begin(1, Update("s", "q", 5));
    Next(es, e);
    es := es + [e];
  }

  lemma OtherUpdateBegun() returns (es: seq<Event>)
    ensures IsRun(CATALOGUE, es) && Replica(CATALOGUE, es, 0, [], "s") == [CartLine("p", 0)]
    ensures Requests(es) == map[0 := Add("s", "p", 0), 1 := Update("s", "q", 5)]
    ensures After(CATALOGUE, es) ==
              State(Db(map[KEY := 0], map[], []), map[0 := Done("s", Okay, true), 1 := Rereading("s")])
  {
    hide IsRun, After, Replica, Lost, Requests, Reduce;
    es := SecondRequestBegun();
    Next(es, Plain(1));
    es := es + [Plain(1)];
  }

  lemma FilteredAway()
    ensures Reduce([CartLine("p", 0)], UpdateCartItem("q", 5)) == []
  {
    var mapped := Mapped([CartLine("p", 0)], "q", To(5));
    assert mapped == [CartLine("p", 0)];
    assert mapped[..0] == [];
  }

  /** An update of another product then takes the line from the client's cart and leaves it in the server's. */
  lemma UpdateAfterNothingDisagrees() returns (es: seq<Event>)
    ensures IsRun(CATALOGUE, es) && !Busy(After(CATALOGUE, es), "s")
    ensures AsMap(Replica(CATALOGUE, es, 0, [], "s")) == map[]
    ensures Rows(After(CATALOGUE, es).db.cart, "s") == map["p" := 0]
  {
    hide IsRun, After, Replica, Lost, Requests, Lists, Reduce, Rows;
    es := OtherUpdateBegun();
    PenIsListed(0);
    RowsOfPen(0);
    FilteredAway();
    var last := Execute(1, [Pen(0)], 0.0, 0);
    Next(es, last);
    es := es + [last];
  }

  // ----- units lost to an overlapping request

  lemma PenCosts()
    ensures Money.Accumulates(LinesOf([Pen(1)]), 1.0) && Money.Product(LineOf(Pen(1)), 1.0) && Money.Stored(1.0, 100)
  {
    var lines := LinesOf([Pen(1)]);
    assert lines == [Money.Line(100, 1)] && lines[..0] == [];
    assert Money.Rounds(1.0, 1.0) && Money.Rounds(1.0 * 1.0, 1.0);
    assert Money.Product(Money.Line(100, 1), 1.0) by {
      assert Money.ParsedTimes(1.0, 1.0, 1.0);
    }
    var rest, line := lines[..|lines| - 1], lines[|lines| - 1];
    assert rest == [] && line == Money.Line(100, 1);
    assert Money.Accumulates(rest, 0.0) && Money.Product(line, 1.0) && Money.Rounds(0.0 + 1.0, 1.0);
    assert Money.HalfAway(100.0 * 1.0) == 100;
  }

  lemma FirstId()
    ensures |Decimal.OrderId(1)| <= 50
  {}

  lemma CheckoutBegun() returns (es: seq<Event>)
    ensures IsRun(CATALOGUE, es) && Lost(CATALOGUE, es, KEY) == 0
    ensures After(CATALOGUE, es) == State(Db(map[KEY := 1], map[], []), map[0 := Rereading("s"), 1 := CartReading("s")])
  {
    hide IsRun, After, Replica, NextReplica, Lost, Requests;
    es := Added(1);
    var checkout := Begin(1, Checkout("s"));
    Next(es, checkout);
    es := es + [checkout];
  }

  /** The cart holds one pen, and a checkout has read it. */
  lemma Snapshot() returns (es: seq<Event>)
    ensures IsRun(CATALOGUE, es) && Lost(CATALOGUE, es, KEY) == 0
    ensures After(CATALOGUE, es) ==
              State(Db(map[KEY := 1], map[], []), map[0 := Rereading("s"), 1 := Counting("s", [Pen(1)], 1.0)])
  {
    hide IsRun, After, Replica, NextReplica, Lost, Requests, Lists, Money.Accumulates, Money.Product, Money.Stored,
      LinesOf;
    es := CheckoutBegun();
    PenIsListed(1);
    PenCosts();
    var read := Execute(1, [Pen(1)], 1.0, 0);
    Next(es, read);
    es := es + [read];
  }

  /** Before it goes on, the shopper sets the line to two. */
  lemma Overlapped() returns (es: seq<Event>)
    ensures IsRun(CATALOGUE, es) && Lost(CATALOGUE, es, KEY) == 0
    ensures After(CATALOGUE, es) ==
            State(Db(map[KEY := 2], map[], []),
                  map[0 := Rereading("s"), 1 := Counting("s", [Pen(1)], 1.0), 2 := Rereading("s")])
  {
    hide IsRun, After, Replica, NextReplica, Lost, Requests;
    es := Snapshot();
    var update, counting := Begin(2, Update("s", "p", 2)), Counting("s", [Pen(1)], 1.0);
    Next(es, update);
    es := es + [update];
    assert After(CATALOGUE, es) ==
           State(Db(map[KEY := 1], map[], []), map[0 := Rereading("s"), 1 := counting, 2 := Setting("s", "p", 2)]);
    Next(es, Plain(2));
    es := es + [Plain(2)];
  }

  lemma Counted() returns (es: seq<Event>)
    ensures IsRun(CATALOGUE, es) && Lost(CATALOGUE, es, KEY) == 0
    ensures After(CATALOGUE, es) ==
            State(Db(map[KEY := 2], map[], []),
                  map[0 := Rereading("s"), 1 := OrderInserting("s", [Pen(1)], 1.0, 0), 2 := Rereading("s")])
  {
    hide IsRun, After, Replica, NextReplica, Lost, Requests;
    es := Overlapped();
    Next(es, Plain(1));
    es := es + [Plain(1)];
  }

  /** The order is then inserted, */
  lemma Ordered() returns (es: seq<Event>)
    ensures IsRun(CATALOGUE, es) && Lost(CATALOGUE, es, KEY) == 0
    ensures var id := Decimal.OrderId(1);
            After(CATALOGUE, es) ==
            State(Db(map[KEY := 2], map[id := 100], []),
                  map[0 := Rereading("s"), 1 := ItemInserting("s", [Pen(1)], id, 0), 2 := Rereading("s")])
  {
    hide IsRun, After, Replica, NextReplica, Lost, Requests, Money.Stored, Decimal.OrderId;
    es := Counted();
    PenCosts();
    FirstId();
    var insert := Execute(1, [], 0.0, 100);
    Next(es, insert);
    es := es + [insert];
  }

  lemma OnePen()
    ensures RowUnits([Pen(1)], "p") == 1
  {
    assert [Pen(1)][..0] == [];
  }

  /** filled with one pen, and the cart is cleared of two. */
  lemma OverlapLosesUnits() returns (es: seq<Event>)
    ensures IsRun(CATALOGUE, es) && Lost(CATALOGUE, es, KEY) == 1
    ensures Ledger(CATALOGUE, es, KEY) !=
            Quantity(After(CATALOGUE, es).db.cart, KEY) +
            Units(After(CATALOGUE, es).db.items,
                  CompletedBy(Creations(CATALOGUE, es), Completed(CATALOGUE, es), "s"), "p")
  {
    hide IsRun, After, Replica, NextReplica, Lost, Requests, Money.Product, Money.Stored, Decimal.OrderId, Ledger,
      Units,
      Creations, Completed, CompletedBy, RowUnits;
    es := Ordered();
    PenCosts();
    OnePen();
    var id := Decimal.OrderId(1);
    var p, item := Rereading("s"), Execute(1, [], 1.0, 100);
    Next(es, item);
    es := es + [item];
    assert After(CATALOGUE, es) == State(Db(map[KEY := 2], map[id := 100], [OrderItem(id, Pen(1), 100)]),
                                         map[0 := p, 1 := CartClearing("s", [Pen(1)], id), 2 := p]);
    Next(es, Plain(1));
    es := es + [Plain(1)];
    UnitsAreAccountedFor(CATALOGUE, es, KEY);
  }
}
