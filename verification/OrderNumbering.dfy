/**
 Order ids are counted, not drawn: SELECT COUNT(*) + 1, then INSERT. With any number of checkouts interleaved the
 ids stay ORD-1..ORD-n without a gap, and a request that fails has written nothing.
 (server/src/server.js:378-395, server/db/schema.sql:58)
 */
module OrderNumbering {
  import opened Tables
  import opened ShopMachine
  import Decimal
  import Money

  /** ORD-1 to ORD-n. */
  function Ids(n: nat): set<OrderId> {
    set k: nat | 1 <= k <= n :: Decimal.OrderId(k)
  }

  ghost predicate Numbered(s: State) {
    && s.db.orders.Keys == Ids(|s.db.orders|)
    && forall pid :: pid in s.processes && s.processes[pid].OrderInserting? ==>
         s.processes[pid].count <= |s.db.orders|
  }

  lemma IdAmong(m: nat, n: nat)
    ensures Decimal.OrderId(m) in Ids(n) <==> 1 <= m <= n
  {
    if Decimal.OrderId(m) in Ids(n) {
      var k: nat :| 1 <= k <= n && Decimal.OrderId(k) == Decimal.OrderId(m);
      Decimal.OrderIdInjective(k, m);
    }
  }

  lemma OneMoreId(n: nat)
    ensures Ids(n + 1) == Ids(n) + {Decimal.OrderId(n + 1)}
  {}

  lemma InsertKeepsIds(db: Db, count: nat, cents: int)
    requires db.orders.Keys == Ids(|db.orders|) && count <= |db.orders|
    ensures var outcome := InsertOrder(db, Decimal.OrderId(count + 1), cents);
            outcome.Accepted? ==>
              && count == |db.orders| && |outcome.db.orders| == |db.orders| + 1
              && outcome.db.orders.Keys == Ids(|outcome.db.orders|)
  {
    IdAmong(count + 1, |db.orders|);
    OneMoreId(|db.orders|);
  }

  lemma StepKeepsNumbering(catalogue: Catalogue, s: State, e: Event)
    requires Numbered(s) && Enabled(catalogue, s, e)
    ensures Numbered(Apply(catalogue, s, e))
  {
    if e.Execute? {
      var p := s.processes[e.pid];
      StatementFrame(catalogue, s.db, p, e.rows, e.amount, e.cents);
      if p.OrderInserting? {
        InsertKeepsIds(s.db, p.count, e.cents);
      }
    }
  }

  lemma {:induction false} RunsAreNumbered(catalogue: Catalogue, es: seq<Event>)
    requires IsRun(catalogue, es)
    ensures Numbered(After(catalogue, es))
  {
    if es != [] {
      RunsAreNumbered(catalogue, es[..|es| - 1]);
      StepKeepsNumbering(catalogue, After(catalogue, es[..|es| - 1]), es[|es| - 1]);
    } else {
      assert Ids(0) == {};
    }
  }

  /**
   In every reachable state, a checkout about to insert its order passes the primary key exactly when no order
   was inserted since it counted: of the checkouts that read one count the first to insert wins, the others lose.
   */
  lemma FirstInsertWins(catalogue: Catalogue, es: seq<Event>, pid: Pid)
    requires IsRun(catalogue, es)
    requires pid in After(catalogue, es).processes && After(catalogue, es).processes[pid].OrderInserting?
    ensures var s := After(catalogue, es); var p := s.processes[pid];
            Decimal.OrderId(p.count + 1) !in s.db.orders <==> p.count == |s.db.orders|
  {
    hide IsRun, After, Ids, Decimal.OrderId;
    RunsAreNumbered(catalogue, es);
    var s := After(catalogue, es);
    IdAmong(s.processes[pid].count + 1, |s.db.orders|);
  }

  lemma StepKeepsOrders(catalogue: Catalogue, s: State, e: Event)
    ensures var early, late := s.db.orders, Apply(catalogue, s, e).db.orders;
            early.Keys <= late.Keys && forall id :: id in early ==> late[id] == early[id]
  {
    if e.Execute? && e.pid in s.processes {
      StatementFrame(catalogue, s.db, s.processes[e.pid], e.rows, e.amount, e.cents);
    }
  }

  lemma SubsetSize<T>(small: set<T>, large: set<T>)
    requires small <= large
    ensures |small| <= |large|
  {
    assert large == small + (large - small);
  }

  /** Orders are never deleted or overwritten, so a count that was passed once is passed for good. */
  lemma {:induction false} OrdersOnlyGrow(catalogue: Catalogue, es: seq<Event>, n: nat)
    requires n <= |es|
    ensures var early, late := After(catalogue, es[..n]).db.orders, After(catalogue, es).db.orders;
            early.Keys <= late.Keys && |early| <= |late| && forall id :: id in early ==> late[id] == early[id]
    decreases |es|
  {
    if n == |es| {
      assert es[..n] == es;
    } else {
      var before := es[..|es| - 1];
      assert before[..n] == es[..n];
      OrdersOnlyGrow(catalogue, before, n);
      StepKeepsOrders(catalogue, After(catalogue, before), es[|es| - 1]);
      SubsetSize(After(catalogue, before).db.orders.Keys, After(catalogue, es).db.orders.Keys);
    }
  }

  /**
   A checkout that some other order has overtaken since it counted is rejected whatever its total, and one that has
   not been overtaken can only fail on the width of its id or on its total.
   */
  lemma OvertakenCheckoutIsRejected(catalogue: Catalogue, es: seq<Event>, n: nat, pid: Pid, cents: int)
    requires IsRun(catalogue, es) && n <= |es|
    requires pid in After(catalogue, es).processes && After(catalogue, es).processes[pid].OrderInserting?
    ensures var s := After(catalogue, es);
            var count := s.processes[pid].count;
            var outcome := InsertOrder(s.db, Decimal.OrderId(count + 1), cents);
            && (|After(catalogue, es[..n]).db.orders| > count ==> outcome == Rejected)
            && (|s.db.orders| == count && |Decimal.OrderId(count + 1)| <= 50 && Money.Fits(cents) ==> outcome.Accepted?)
  {
    FirstInsertWins(catalogue, es, pid);
    OrdersOnlyGrow(catalogue, es, n);
    RunsAreNumbered(catalogue, es);
  }

  // ----- a request that fails has written nothing

  /** The processes one of whose statements has changed the tables. */
  function Touched(catalogue: Catalogue, es: seq<Event>): set<Pid> {
    if es == [] then {}
    else
      var before, e := es[..|es| - 1], es[|es| - 1];
      Touched(catalogue, before) +
      if After(catalogue, es).db != After(catalogue, before).db then {e.pid} else {}
  }

  lemma WritersWrote(catalogue: Catalogue, s: State, e: Event)
    requires Enabled(catalogue, s, e)
    ensures Apply(catalogue, s, e).db != s.db ==> e.pid in s.processes && Wrote(Apply(catalogue, s, e).processes[e.pid])
    ensures forall pid :: pid in s.processes && Wrote(s.processes[pid]) ==>
              pid in Apply(catalogue, s, e).processes && Wrote(Apply(catalogue, s, e).processes[pid])
  {}

  /**
   In every run the tables were changed only by requests whose write statements succeeded: a request answered
   without that - product missing, empty cart, a constraint violated by the cart or the order INSERT, a statement
   refused before the first write - left no trace at any of its statements.
   */
  lemma {:induction false} FailedRequestsWroteNothing(catalogue: Catalogue, es: seq<Event>)
    requires IsRun(catalogue, es)
    ensures forall pid :: pid in Touched(catalogue, es) ==>
              pid in After(catalogue, es).processes && Wrote(After(catalogue, es).processes[pid])
  {
    if es != [] {
      FailedRequestsWroteNothing(catalogue, es[..|es| - 1]);
      WritersWrote(catalogue, After(catalogue, es[..|es| - 1]), es[|es| - 1]);
    }
  }
}
