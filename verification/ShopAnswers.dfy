/**
 Why a request is answered as it is: in every run, whatever runs in between, the answer and the write of a request of
 which no statement was refused from outside follow from what its own statements found, and a failure has one of a few
 reasons, each given here with its limit. (server/src/server.js:152-439, server/db/schema.sql:43-84)
 */
module ShopAnswers {
  import opened Tables
  import opened ShopMachine
  import opened OrderNumbering
  import opened OrderOwnership
  import Decimal
  import Money

  // ----- moments of a run

  function CartAt(catalogue: Catalogue, es: seq<Event>, n: nat): Cart
    requires n <= |es|
  {
    After(catalogue, es[..n]).db.cart
  }

  /** Event n executes the statement at which request pid stands as p. */
  ghost predicate Executes(catalogue: Catalogue, es: seq<Event>, n: nat, pid: Pid, p: Process) {
    && n < |es| && es[n].Execute? && es[n].pid == pid
    && pid in After(catalogue, es[..n]).processes && After(catalogue, es[..n]).processes[pid] == p
  }

  lemma ExecutesForLonger(catalogue: Catalogue, es: seq<Event>, e: Event, n: nat, pid: Pid, p: Process)
    requires Executes(catalogue, es, n, pid, p)
    ensures Executes(catalogue, es + [e], n, pid, p)
    ensures CartAt(catalogue, es + [e], n) == CartAt(catalogue, es, n)
    ensures CartAt(catalogue, es + [e], n + 1) == CartAt(catalogue, es, n + 1)
  {
    assert (es + [e])[..n] == es[..n] && (es + [e])[..n + 1] == es[..n + 1];
  }

  /** The last event of a run executes a statement of request pid. */
  lemma ExecutesLast(catalogue: Catalogue, es: seq<Event>, e: Event, pid: Pid)
    requires e.Execute? && e.pid == pid && pid in After(catalogue, es).processes
    ensures Executes(catalogue, es + [e], |es|, pid, After(catalogue, es).processes[pid])
    ensures CartAt(catalogue, es + [e], |es|) == After(catalogue, es).db.cart
    ensures CartAt(catalogue, es + [e], |es| + 1) == Apply(catalogue, After(catalogue, es), e).db.cart
  {
    assert (es + [e])[..|es|] == es && (es + [e])[..|es| + 1] == es + [e];
  }

  // ----- what the write of a cart request does

  predicate IsInt4(n: int) {
    -2147483648 <= n <= 2147483647
  }

  datatype Effect = Effect(ok: bool, cart: Cart)

  /** POST: the UPDATE if the handler's SELECT found the row, and the INSERT if it did not. */
  function Addition(cart: Cart, key: CartKey, present: bool, quantity: int): Effect {
    if !IsInt4(quantity) then Effect(false, cart)
    else if present then
      if key !in cart then Effect(true, cart)
      else if IsInt4(cart[key] + quantity) then Effect(true, cart[key := cart[key] + quantity])
      else Effect(false, cart)
    else if |key.session| > 255 || key in cart then Effect(false, cart)
    else Effect(true, cart[key := quantity])
  }

  /** PUT */
  function Replacement(cart: Cart, key: CartKey, quantity: int): Effect {
    if quantity <= 0 then Effect(true, cart - {key})
    else if quantity > 2147483647 then Effect(false, cart)
    else Effect(true, if key in cart then cart[key := quantity] else cart)
  }

  // ----- POST /api/cart

  /**
   Request pid looked for its line at one event and wrote at a later one, in the way that its look had decided, and ok
   says whether the write was accepted.
   */
  ghost predicate Upserted(catalogue: Catalogue, es: seq<Event>, pid: Pid, key: CartKey, quantity: int,
                           looked: nat, written: nat, ok: bool)
  {
    && looked < written
    && Executes(catalogue, es, looked, pid, AddLooking(key.session, key.product, quantity))
    && var present := key in CartAt(catalogue, es, looked);
    && Executes(catalogue, es, written, pid,
                if present then AddUpdating(key.session, key.product, quantity)
                else AddInserting(key.session, key.product, quantity))
    && Effect(ok, CartAt(catalogue, es, written + 1)) ==
       Addition(CartAt(catalogue, es, written), key, present, quantity)
  }

  ghost predicate HasLooked(catalogue: Catalogue, es: seq<Event>, pid: Pid, key: CartKey, quantity: int, present: bool)
  {
    exists looked: nat ::
      && Executes(catalogue, es, looked, pid, AddLooking(key.session, key.product, quantity))
      && (key in CartAt(catalogue, es, looked) <==> present)
  }

  ghost predicate HasUpserted(catalogue: Catalogue, es: seq<Event>, pid: Pid, key: CartKey, quantity: int, ok: bool) {
    exists looked: nat, written: nat :: Upserted(catalogue, es, pid, key, quantity, looked, written, ok)
  }

  /** What has led a POST to where it stands. */
  ghost predicate AddStory(catalogue: Catalogue, es: seq<Event>, pid: Pid, p: Process, r: Request)
    requires r.Add?
  {
    var key := CartKey(r.session, r.product);
    Refuse(pid) in es ||
    match p
    case AddChecking(_, _, _) => true
    case AddLooking(_, _, _) => r.product in catalogue
    case AddUpdating(_, _, _) => r.product in catalogue && HasLooked(catalogue, es, pid, key, r.quantity, true)
    case AddInserting(_, _, _) => r.product in catalogue && HasLooked(catalogue, es, pid, key, r.quantity, false)
    case Rereading(_) => r.product in catalogue && HasUpserted(catalogue, es, pid, key, r.quantity, true)
    case Done(_, answer, _) =>
      if r.product !in catalogue then answer == ProductMissing
      else (answer == Okay || answer == Failed) && HasUpserted(catalogue, es, pid, key, r.quantity, answer == Okay)
    case _ => false
  }

  lemma HasLookedForLonger(catalogue: Catalogue, es: seq<Event>, e: Event, pid: Pid, key: CartKey, quantity: int,
                           present: bool)
    requires HasLooked(catalogue, es, pid, key, quantity, present)
    ensures HasLooked(catalogue, es + [e], pid, key, quantity, present)
  {
    var p := AddLooking(key.session, key.product, quantity);
    var looked: nat :| Executes(catalogue, es, looked, pid, p) && (key in CartAt(catalogue, es, looked) <==> present);
    ExecutesForLonger(catalogue, es, e, looked, pid, p);
  }

  lemma HasUpsertedForLonger(catalogue: Catalogue, es: seq<Event>, e: Event, pid: Pid, key: CartKey, quantity: int,
                             ok: bool)
    requires HasUpserted(catalogue, es, pid, key, quantity, ok)
    ensures HasUpserted(catalogue, es + [e], pid, key, quantity, ok)
  {
    var looked: nat, written: nat :| Upserted(catalogue, es, pid, key, quantity, looked, written, ok);
    hide Executes, CartAt, Addition;
    ExecutesForLonger(catalogue, es, e, looked, pid, AddLooking(key.session, key.product, quantity));
    ExecutesForLonger(catalogue, es, e, written, pid,
                      if key in CartAt(catalogue, es, looked) then AddUpdating(key.session, key.product, quantity)
                      else AddInserting(key.session, key.product, quantity));
    assert Upserted(catalogue, es + [e], pid, key, quantity, looked, written, ok);
  }

  /** Another request's event leaves the story. */
  lemma AddStoryForLonger(catalogue: Catalogue, es: seq<Event>, e: Event, pid: Pid, p: Process, r: Request)
    requires r.Add? && AddStory(catalogue, es, pid, p, r)
    ensures AddStory(catalogue, es + [e], pid, p, r)
  {
    var key := CartKey(r.session, r.product);
    hide HasLooked, HasUpserted;
    if Refuse(pid) !in es {
      if p.AddUpdating? || p.AddInserting? {
        HasLookedForLonger(catalogue, es, e, pid, key, r.quantity, p.AddUpdating?);
      } else if p.Rereading? || (p.Done? && r.product in catalogue) {
        HasUpsertedForLonger(catalogue, es, e, pid, key, r.quantity, p.Rereading? || p.answer == Okay);
      }
    }
  }

  /** The two writing statements, by their limits. */
  lemma AdditionIsWritten(catalogue: Catalogue, db: Db, p: Process, e: Event)
    requires e.Execute? && (p.AddUpdating? || p.AddInserting?) && p.product in catalogue
    ensures var (after, p') := Statement(catalogue, db, p, e.rows, e.amount, e.cents);
            var effect := Addition(db.cart, CartKey(p.session, p.product), p.AddUpdating?, p.quantity);
            && after.cart == effect.cart
            && p' == if effect.ok then Rereading(p.session) else Done(p.session, Failed, false)
  {}

  lemma LooksNow(catalogue: Catalogue, es: seq<Event>, e: Event, pid: Pid, key: CartKey, quantity: int)
    requires pid in After(catalogue, es).processes && e.Execute? && e.pid == pid
    requires After(catalogue, es).processes[pid] == AddLooking(key.session, key.product, quantity)
    ensures HasLooked(catalogue, es + [e], pid, key, quantity, key in After(catalogue, es).db.cart)
  {
    ExecutesLast(catalogue, es, e, pid);
    hide Executes, CartAt, After;
    var looked: nat := |es|;
    assert Executes(catalogue, es + [e], looked, pid, AddLooking(key.session, key.product, quantity));
  }

  lemma WritesNow(catalogue: Catalogue, es: seq<Event>, e: Event, pid: Pid, key: CartKey, quantity: int, present: bool)
    requires pid in After(catalogue, es).processes && e.Execute? && e.pid == pid
    requires HasLooked(catalogue, es, pid, key, quantity, present)
    requires After(catalogue, es).processes[pid] ==
             if present then AddUpdating(key.session, key.product, quantity)
             else AddInserting(key.session, key.product, quantity)
    requires var effect := Addition(After(catalogue, es).db.cart, key, present, quantity);
             Apply(catalogue, After(catalogue, es), e).db.cart == effect.cart
    ensures HasUpserted(catalogue, es + [e], pid, key, quantity,
                        Addition(After(catalogue, es).db.cart, key, present, quantity).ok)
  {
    var p := AddLooking(key.session, key.product, quantity);
    var looked: nat :| Executes(catalogue, es, looked, pid, p) && (key in CartAt(catalogue, es, looked) <==> present);
    assert looked < |es|;
    ExecutesLast(catalogue, es, e, pid);
    ExecutesForLonger(catalogue, es, e, looked, pid, p);
    var ok := Addition(After(catalogue, es).db.cart, key, present, quantity).ok;
    hide Executes, CartAt, After, Apply, Addition;
    assert Upserted(catalogue, es + [e], pid, key, quantity, looked, |es|, ok);
  }

  lemma OwnAddStep(catalogue: Catalogue, es: seq<Event>, e: Event, pid: Pid, r: Request)
    requires pid in After(catalogue, es).processes && e.Execute? && e.pid == pid && r.Add?
    requires var p := After(catalogue, es).processes[pid];
             IsActive(p) && Serves(p, r) && AddStory(catalogue, es, pid, p, r)
    ensures AddStory(catalogue, es + [e], pid, Apply(catalogue, After(catalogue, es), e).processes[pid], r)
  {
    hide After, Addition, HasLooked, HasUpserted;
    var s := After(catalogue, es);
    var p, key := s.processes[pid], CartKey(r.session, r.product);
    if Refuse(pid) in es {
      hide Statement;
    } else if p.AddUpdating? || p.AddInserting? {
      AdditionIsWritten(catalogue, s.db, p, e);
      hide Statement;
      WritesNow(catalogue, es, e, pid, key, r.quantity, p.AddUpdating?);
    } else if p.AddLooking? {
      LooksNow(catalogue, es, e, pid, key, r.quantity);
    } else if p.Rereading? {
      HasUpsertedForLonger(catalogue, es, e, pid, key, r.quantity, true);
    }
  }

  lemma AddStoryBegins(catalogue: Catalogue, es: seq<Event>, pid: Pid, r: Request)
    requires r.Add?
    ensures AddStory(catalogue, es, pid, Start(r), r)
  {}

  lemma AddStoryIsCut(catalogue: Catalogue, es: seq<Event>, pid: Pid, p: Process, r: Request)
    requires r.Add? && Refuse(pid) in es
    ensures AddStory(catalogue, es, pid, p, r)
  {}

  lemma {:induction false} PostHasItsStory(catalogue: Catalogue, es: seq<Event>, pid: Pid)
    requires IsRun(catalogue, es) && pid in Requests(es) && Requests(es)[pid].Add?
    ensures pid in After(catalogue, es).processes
    ensures AddStory(catalogue, es, pid, After(catalogue, es).processes[pid], Requests(es)[pid])
  {
    ProcessesServeTheirRequests(catalogue, es);
    hide AddStory, Statement, Possible;
    var before, e := es[..|es| - 1], es[|es| - 1];
    assert es == before + [e];
    var s, r := After(catalogue, before), Requests(es)[pid];
    if e == Begin(pid, r) {
      AddStoryBegins(catalogue, es, pid, r);
    } else {
      ProcessesServeTheirRequests(catalogue, before);
      PostHasItsStory(catalogue, before, pid);
      if e.pid != pid {
        AddStoryForLonger(catalogue, before, e, pid, s.processes[pid], r);
      } else if e.Refuse? {
        AddStoryIsCut(catalogue, es, pid, After(catalogue, es).processes[pid], r);
      } else {
        OwnAddStep(catalogue, before, e, pid, r);
      }
    }
  }

  /** Is request pid answered, and was none of its statements refused from outside? */
  ghost predicate IsAnswered(catalogue: Catalogue, es: seq<Event>, pid: Pid) {
    && IsRun(catalogue, es) && Refuse(pid) !in es && pid in Requests(es)
    && pid in After(catalogue, es).processes && After(catalogue, es).processes[pid].Done?
  }

  function AnswerTo(catalogue: Catalogue, es: seq<Event>, pid: Pid): Answer
    requires IsAnswered(catalogue, es, pid)
  {
    After(catalogue, es).processes[pid].answer
  }

  /**
   A POST is answered ProductMissing exactly if the product is not in the catalogue. Otherwise it has looked for its
   line and written it: Addition says what the write has done to the cart and that the answer is Okay exactly if it was
   accepted.
   */
  lemma PostIsAnswered(catalogue: Catalogue, es: seq<Event>, pid: Pid)
    requires IsAnswered(catalogue, es, pid) && Requests(es)[pid].Add?
    ensures var (r, answer) := (Requests(es)[pid], AnswerTo(catalogue, es, pid));
            && (answer == ProductMissing <==> r.product !in catalogue)
            && (r.product in catalogue ==>
                  && (answer == Okay || answer == Failed)
                  && HasUpserted(catalogue, es, pid, CartKey(r.session, r.product), r.quantity, answer == Okay))
  {
    hide HasUpserted;
    PostHasItsStory(catalogue, es, pid);
  }

  /**
   A POST fails only because its session has more than 255 characters, its quantity or the resulting sum is not a 32-bit
   integer, or a row for its line was inserted between its SELECT and its INSERT.
   */
  lemma PostFailsOnlyIf(catalogue: Catalogue, es: seq<Event>, pid: Pid)
    requires IsAnswered(catalogue, es, pid) && Requests(es)[pid].Add? && AnswerTo(catalogue, es, pid) == Failed
    ensures var r := Requests(es)[pid];
            var key := CartKey(r.session, r.product);
            || |r.session| > 255 || !(-2147483648 <= r.quantity <= 2147483647)
            || exists looked: nat, written: nat ::
                 && Upserted(catalogue, es, pid, key, r.quantity, looked, written, false)
                 && key in CartAt(catalogue, es, written)
                 && (key in CartAt(catalogue, es, looked) ==>
                       !(-2147483648 <= CartAt(catalogue, es, written)[key] + r.quantity <= 2147483647))
  {
    PostIsAnswered(catalogue, es, pid);
    var r := Requests(es)[pid];
    var key := CartKey(r.session, r.product);
    var looked: nat, written: nat :| Upserted(catalogue, es, pid, key, r.quantity, looked, written, false);
    hide IsAnswered, CartAt, After;
  }

  // ----- PUT and DELETE /api/cart/:id, DELETE /api/cart

  predicate WritesOnce(r: Request) {
    r.Update? || r.Remove? || r.Clear?
  }

  /** The one write of such a request. */
  function OneWrite(r: Request, cart: Cart): Effect
    requires WritesOnce(r)
  {
    match r
    case Update(session, product, quantity) => Replacement(cart, CartKey(session, product), quantity)
    case Remove(session, product) => Effect(true, cart - {CartKey(session, product)})
    case Clear(session) => Effect(true, map key | key in cart && key.session != session :: cart[key])
  }

  ghost predicate HasWritten(catalogue: Catalogue, es: seq<Event>, pid: Pid, r: Request, ok: bool)
    requires WritesOnce(r)
  {
    exists written: nat ::
      && Executes(catalogue, es, written, pid, Start(r))
      && Effect(ok, CartAt(catalogue, es, written + 1)) == OneWrite(r, CartAt(catalogue, es, written))
  }

  ghost predicate WriteStory(catalogue: Catalogue, es: seq<Event>, pid: Pid, p: Process, r: Request)
    requires WritesOnce(r)
  {
    Refuse(pid) in es ||
    if p.Done? then (p.answer == Okay || p.answer == Failed) && HasWritten(catalogue, es, pid, r, p.answer == Okay)
    else if p.Rereading? then HasWritten(catalogue, es, pid, r, true)
    else p == Start(r)
  }

  lemma HasWrittenForLonger(catalogue: Catalogue, es: seq<Event>, e: Event, pid: Pid, r: Request, ok: bool)
    requires WritesOnce(r) && HasWritten(catalogue, es, pid, r, ok)
    ensures HasWritten(catalogue, es + [e], pid, r, ok)
  {
    var written: nat :|
      && Executes(catalogue, es, written, pid, Start(r))
      && Effect(ok, CartAt(catalogue, es, written + 1)) == OneWrite(r, CartAt(catalogue, es, written));
    ExecutesForLonger(catalogue, es, e, written, pid, Start(r));
  }

  lemma WriteStoryForLonger(catalogue: Catalogue, es: seq<Event>, e: Event, pid: Pid, p: Process, r: Request)
    requires WritesOnce(r) && WriteStory(catalogue, es, pid, p, r)
    ensures WriteStory(catalogue, es + [e], pid, p, r)
  {
    hide HasWritten;
    if Refuse(pid) !in es && (p.Done? || p.Rereading?) {
      HasWrittenForLonger(catalogue, es, e, pid, r, p.Rereading? || p.answer == Okay);
    }
  }

  lemma OneWriteIsWritten(catalogue: Catalogue, db: Db, r: Request, e: Event)
    requires e.Execute? && WritesOnce(r)
    ensures var (after, p') := Statement(catalogue, db, Start(r), e.rows, e.amount, e.cents);
            var effect := OneWrite(r, db.cart);
            && after.cart == effect.cart
            && p' == if !effect.ok then Done(r.session, Failed, false)
                     else if r.Clear? then Done(r.session, Okay, true) else Rereading(r.session)
  {}

  lemma OneWriteNow(catalogue: Catalogue, es: seq<Event>, e: Event, pid: Pid, r: Request)
    requires pid in After(catalogue, es).processes && e.Execute? && e.pid == pid && WritesOnce(r)
    requires After(catalogue, es).processes[pid] == Start(r)
    requires Apply(catalogue, After(catalogue, es), e).db.cart == OneWrite(r, After(catalogue, es).db.cart).cart
    ensures HasWritten(catalogue, es + [e], pid, r, OneWrite(r, After(catalogue, es).db.cart).ok)
  {
    ExecutesLast(catalogue, es, e, pid);
    hide Executes, CartAt, After, Apply, OneWrite, Start;
    var written: nat := |es|;
    assert Executes(catalogue, es + [e], written, pid, Start(r));
  }

  lemma OwnWriteStep(catalogue: Catalogue, es: seq<Event>, e: Event, pid: Pid, r: Request)
    requires pid in After(catalogue, es).processes && e.Execute? && e.pid == pid && WritesOnce(r)
    requires var p := After(catalogue, es).processes[pid];
             IsActive(p) && Serves(p, r) && WriteStory(catalogue, es, pid, p, r)
    ensures WriteStory(catalogue, es + [e], pid, Apply(catalogue, After(catalogue, es), e).processes[pid], r)
  {
    hide After, OneWrite, HasWritten;
    var s := After(catalogue, es);
    var p := s.processes[pid];
    if Refuse(pid) in es {
      hide Statement;
    } else if p.Rereading? {
      HasWrittenForLonger(catalogue, es, e, pid, r, true);
    } else {
      OneWriteIsWritten(catalogue, s.db, r, e);
      hide Statement, Start;
      OneWriteNow(catalogue, es, e, pid, r);
    }
  }

  lemma WriteStoryBegins(catalogue: Catalogue, es: seq<Event>, pid: Pid, r: Request)
    requires WritesOnce(r)
    ensures WriteStory(catalogue, es, pid, Start(r), r)
  {}

  lemma WriteStoryIsCut(catalogue: Catalogue, es: seq<Event>, pid: Pid, p: Process, r: Request)
    requires WritesOnce(r) && Refuse(pid) in es
    ensures WriteStory(catalogue, es, pid, p, r)
  {}

  lemma {:induction false} WriteHasItsStory(catalogue: Catalogue, es: seq<Event>, pid: Pid)
    requires IsRun(catalogue, es) && pid in Requests(es) && WritesOnce(Requests(es)[pid])
    ensures pid in After(catalogue, es).processes
    ensures WriteStory(catalogue, es, pid, After(catalogue, es).processes[pid], Requests(es)[pid])
  {
    ProcessesServeTheirRequests(catalogue, es);
    hide WriteStory, Statement, Possible;
    var before, e := es[..|es| - 1], es[|es| - 1];
    assert es == before + [e];
    var s, r := After(catalogue, before), Requests(es)[pid];
    if e == Begin(pid, r) {
      WriteStoryBegins(catalogue, es, pid, r);
    } else {
      ProcessesServeTheirRequests(catalogue, before);
      WriteHasItsStory(catalogue, before, pid);
      if e.pid != pid {
        WriteStoryForLonger(catalogue, before, e, pid, s.processes[pid], r);
      } else if e.Refuse? {
        WriteStoryIsCut(catalogue, es, pid, After(catalogue, es).processes[pid], r);
      } else {
        OwnWriteStep(catalogue, before, e, pid, r);
      }
    }
  }

  /**
   A PUT or a DELETE has written once: OneWrite says what that has done to the cart, and the answer is Okay unless the
   write was not accepted, as it is only for a PUT of more than 2147483647.
   */
  lemma WriteIsAnswered(catalogue: Catalogue, es: seq<Event>, pid: Pid)
    requires IsAnswered(catalogue, es, pid) && WritesOnce(Requests(es)[pid])
    ensures var (r, answer) := (Requests(es)[pid], AnswerTo(catalogue, es, pid));
            && answer == (if r.Update? && r.quantity > 2147483647 then Failed else Okay)
            && exists written: nat ::
                 && Executes(catalogue, es, written, pid, Start(r))
                 && CartAt(catalogue, es, written + 1) == OneWrite(r, CartAt(catalogue, es, written)).cart
  {
    WriteHasItsStory(catalogue, es, pid);
    var (r, answer) := (Requests(es)[pid], AnswerTo(catalogue, es, pid));
    var written: nat :|
      && Executes(catalogue, es, written, pid, Start(r))
      && Effect(answer == Okay, CartAt(catalogue, es, written + 1)) == OneWrite(r, CartAt(catalogue, es, written));
  }

  /** GET /api/cart fails only if it is refused. */
  lemma {:induction false} ShowIsAnswered(catalogue: Catalogue, es: seq<Event>, pid: Pid)
    requires IsRun(catalogue, es) && Refuse(pid) !in es && pid in Requests(es) && Requests(es)[pid].Show?
    ensures pid in After(catalogue, es).processes
    ensures After(catalogue, es).processes[pid] in
            {Showing(Requests(es)[pid].session), Done(Requests(es)[pid].session, Okay, false)}
  {
    ProcessesServeTheirRequests(catalogue, es);
    var before, e := es[..|es| - 1], es[|es| - 1];
    if e != Begin(pid, Requests(es)[pid]) {
      ProcessesServeTheirRequests(catalogue, before);
      assert forall x :: x in before ==> x in es;
      ShowIsAnswered(catalogue, before, pid);
    }
  }

  // ----- POST /api/orders

  function TablesAt(catalogue: Catalogue, es: seq<Event>, n: nat): Db
    requires n <= |es|
  {
    After(catalogue, es[..n]).db
  }

  /** The amount a DECIMAL(10,2) column can hold, in cents. */
  predicate IsAmount(cents: int) {
    -10_000_000_000 < cents < 10_000_000_000
  }

  /** The checkout's SELECT found no row of the session's cart. */
  ghost predicate FoundNothing(catalogue: Catalogue, es: seq<Event>, pid: Pid, session: SessionId) {
    exists read: nat ::
      && Executes(catalogue, es, read, pid, CartReading(session))
      && forall key :: key in CartAt(catalogue, es, read) ==> key.session != session
  }

  /**
   The checkout had counted, and at its INSERT another order had come in since, or its row did not fit its columns.
   */
  ghost predicate OrderRejectedAt(catalogue: Catalogue, es: seq<Event>, n: nat, pid: Pid, p: Process) {
    && p.OrderInserting? && Executes(catalogue, es, n, pid, p) && Money.Stored(p.total, es[n].cents)
    && (|TablesAt(catalogue, es, n).orders| > p.count || |Decimal.OrderId(p.count + 1)| > 50 || !IsAmount(es[n].cents))
  }

  /** The subtotal of an item did not fit its column. */
  ghost predicate ItemRejectedAt(catalogue: Catalogue, es: seq<Event>, n: nat, pid: Pid, p: Process) {
    && p.ItemInserting? && p.next < |p.rows| && Executes(catalogue, es, n, pid, p)
    && Money.Product(LineOf(p.rows[p.next]), es[n].amount) && Money.Stored(es[n].amount, es[n].cents)
    && !IsAmount(es[n].cents)
  }

  ghost predicate WasRejected(catalogue: Catalogue, es: seq<Event>, pid: Pid) {
    exists n: nat, p ::
      OrderRejectedAt(catalogue, es, n, pid, p) || ItemRejectedAt(catalogue, es, n, pid, p)
  }

  /** The checkout has inserted its order, under an id that was free and with its total. */
  ghost predicate PlacedAt(catalogue: Catalogue, es: seq<Event>, n: nat, pid: Pid, p: Process, id: OrderId) {
    && p.OrderInserting? && Executes(catalogue, es, n, pid, p) && Money.Stored(p.total, es[n].cents)
    && id == Decimal.OrderId(p.count + 1) && id !in TablesAt(catalogue, es, n).orders
    && TablesAt(catalogue, es, n + 1).orders == TablesAt(catalogue, es, n).orders[id := es[n].cents]
  }

  ghost predicate WasPlaced(catalogue: Catalogue, es: seq<Event>, pid: Pid, session: SessionId, rows: seq<CartRow>,
                            id: OrderId)
  {
    exists n: nat, p :: PlacedAt(catalogue, es, n, pid, p, id) && p.session == session && p.rows == rows
  }

  /** It has read its order back. */
  ghost predicate WasCompleted(catalogue: Catalogue, es: seq<Event>, pid: Pid, session: SessionId) {
    exists n: nat, rows, id ::
      && Executes(catalogue, es, n, pid, ItemsReading(session, rows, id))
      && WasPlaced(catalogue, es, pid, session, rows, id)
  }

  /** What has led a checkout to where it stands. */
  ghost predicate CheckoutStory(catalogue: Catalogue, es: seq<Event>, pid: Pid, p: Process) {
    Refuse(pid) in es ||
    if p.Done? then
      match p.answer
      case CartEmpty => FoundNothing(catalogue, es, pid, p.session)
      case Failed => WasRejected(catalogue, es, pid)
      case Created => WasCompleted(catalogue, es, pid, p.session)
      case _ => false
    else HasOrder(p) ==> WasPlaced(catalogue, es, pid, p.session, p.rows, p.id)
  }

  lemma TablesForLonger(catalogue: Catalogue, es: seq<Event>, e: Event, n: nat)
    requires n < |es|
    ensures (es + [e])[n] == es[n]
    ensures TablesAt(catalogue, es + [e], n) == TablesAt(catalogue, es, n)
    ensures TablesAt(catalogue, es + [e], n + 1) == TablesAt(catalogue, es, n + 1)
  {
    assert (es + [e])[..n] == es[..n] && (es + [e])[..n + 1] == es[..n + 1];
  }

  lemma FoundNothingForLonger(catalogue: Catalogue, es: seq<Event>, e: Event, pid: Pid, session: SessionId)
    requires FoundNothing(catalogue, es, pid, session)
    ensures FoundNothing(catalogue, es + [e], pid, session)
  {
    var read: nat :|
      && Executes(catalogue, es, read, pid, CartReading(session))
      && forall key :: key in CartAt(catalogue, es, read) ==> key.session != session;
    ExecutesForLonger(catalogue, es, e, read, pid, CartReading(session));
  }

  lemma WasRejectedForLonger(catalogue: Catalogue, es: seq<Event>, e: Event, pid: Pid)
    requires WasRejected(catalogue, es, pid)
    ensures WasRejected(catalogue, es + [e], pid)
  {
    var n: nat, p :| OrderRejectedAt(catalogue, es, n, pid, p) || ItemRejectedAt(catalogue, es, n, pid, p);
    assert Executes(catalogue, es, n, pid, p);
    TablesForLonger(catalogue, es, e, n);
    ExecutesForLonger(catalogue, es, e, n, pid, p);
    hide Executes, TablesAt, Money.Stored, Money.Product, Decimal.OrderId;
    assert OrderRejectedAt(catalogue, es + [e], n, pid, p) || ItemRejectedAt(catalogue, es + [e], n, pid, p);
  }

  lemma WasPlacedForLonger(catalogue: Catalogue, es: seq<Event>, e: Event, pid: Pid, session: SessionId,
                           rows: seq<CartRow>, id: OrderId)
    requires WasPlaced(catalogue, es, pid, session, rows, id)
    ensures WasPlaced(catalogue, es + [e], pid, session, rows, id)
  {
    var n: nat, p :| PlacedAt(catalogue, es, n, pid, p, id) && p.session == session && p.rows == rows;
    assert n < |es|;
    TablesForLonger(catalogue, es, e, n);
    ExecutesForLonger(catalogue, es, e, n, pid, p);
    hide Executes, TablesAt, Money.Stored, Decimal.OrderId;
    assert PlacedAt(catalogue, es + [e], n, pid, p, id);
  }

  lemma WasCompletedForLonger(catalogue: Catalogue, es: seq<Event>, e: Event, pid: Pid, session: SessionId)
    requires WasCompleted(catalogue, es, pid, session)
    ensures WasCompleted(catalogue, es + [e], pid, session)
  {
    hide Executes, WasPlaced;
    var n: nat, rows, id :|
      && Executes(catalogue, es, n, pid, ItemsReading(session, rows, id))
      && WasPlaced(catalogue, es, pid, session, rows, id);
    ExecutesForLonger(catalogue, es, e, n, pid, ItemsReading(session, rows, id));
    WasPlacedForLonger(catalogue, es, e, pid, session, rows, id);
  }

  lemma CheckoutStoryForLonger(catalogue: Catalogue, es: seq<Event>, e: Event, pid: Pid, p: Process)
    requires CheckoutStory(catalogue, es, pid, p)
    ensures CheckoutStory(catalogue, es + [e], pid, p)
  {
    hide FoundNothing, WasRejected, WasCompleted, WasPlaced;
    if Refuse(pid) in es {
    } else if p.Done? {
      match p.answer
      case CartEmpty => FoundNothingForLonger(catalogue, es, e, pid, p.session);
      case Failed => WasRejectedForLonger(catalogue, es, e, pid);
      case Created => WasCompletedForLonger(catalogue, es, e, pid, p.session);
    } else if HasOrder(p) {
      WasPlacedForLonger(catalogue, es, e, pid, p.session, p.rows, p.id);
    }
  }

  // ----- one statement of a checkout

  lemma LastTables(catalogue: Catalogue, es: seq<Event>, e: Event)
    ensures (es + [e])[|es|] == e
    ensures TablesAt(catalogue, es + [e], |es|) == After(catalogue, es).db
    ensures TablesAt(catalogue, es + [e], |es| + 1) == Apply(catalogue, After(catalogue, es), e).db
  {
    assert (es + [e])[..|es|] == es && (es + [e])[..|es| + 1] == es + [e];
  }

  lemma NothingListed(catalogue: Catalogue, cart: Cart, session: SessionId)
    requires Lists(catalogue, cart, session, []) && CartInCatalogue(catalogue, cart)
    ensures forall key :: key in cart ==> key.session != session
  {}

  lemma ReadsCartNow(catalogue: Catalogue, es: seq<Event>, e: Event, pid: Pid, session: SessionId)
    requires IsRun(catalogue, es) && pid in After(catalogue, es).processes && e.Execute? && e.pid == pid
    requires After(catalogue, es).processes[pid] == CartReading(session)
    requires Lists(catalogue, After(catalogue, es).db.cart, session, e.rows)
    ensures CheckoutStory(catalogue, es + [e], pid, Apply(catalogue, After(catalogue, es), e).processes[pid])
  {
    if e.rows == [] {
      CartStaysInCatalogue(catalogue, es);
      NothingListed(catalogue, After(catalogue, es).db.cart, session);
      ExecutesLast(catalogue, es, e, pid);
      hide Executes, CartAt, After, Lists;
      var read: nat := |es|;
      assert Executes(catalogue, es + [e], read, pid, CartReading(session));
    }
  }

  /** Why an order is rejected. */
  lemma OrderIsInsertedExactlyIf(catalogue: Catalogue, es: seq<Event>, pid: Pid, e: Event)
    requires IsRun(catalogue, es) && pid in After(catalogue, es).processes && e.Execute? && e.pid == pid
    requires After(catalogue, es).processes[pid].OrderInserting?
    ensures var s := After(catalogue, es);
            var p := s.processes[pid];
            var id := Decimal.OrderId(p.count + 1);
            var (db, p') := Statement(catalogue, s.db, p, e.rows, e.amount, e.cents);
            if |s.db.orders| > p.count || |id| > 50 || !IsAmount(e.cents) then p' == Done(p.session, Failed, false)
            else
              && HasOrder(p') && p'.session == p.session && p'.rows == p.rows && p'.id == id
              && id !in s.db.orders && db.orders == s.db.orders[id := e.cents]
  {
    hide IsRun;
    FirstInsertWins(catalogue, es, pid);
    RunsAreNumbered(catalogue, es);
    hide After, Ids, Decimal.OrderId;
  }

  lemma PlacesNow(catalogue: Catalogue, es: seq<Event>, e: Event, pid: Pid)
    requires IsRun(catalogue, es) && pid in After(catalogue, es).processes && e.Execute? && e.pid == pid
    requires After(catalogue, es).processes[pid].OrderInserting?
    requires Money.Stored(After(catalogue, es).processes[pid].total, e.cents)
    ensures CheckoutStory(catalogue, es + [e], pid, Apply(catalogue, After(catalogue, es), e).processes[pid])
  {
    hide IsRun, After, Executes, TablesAt, Money.Stored, Decimal.OrderId;
    var s := After(catalogue, es);
    var p := s.processes[pid];
    var id := Decimal.OrderId(p.count + 1);
    var n: nat := |es|;
    OrderIsInsertedExactlyIf(catalogue, es, pid, e);
    hide Statement;
    ExecutesLast(catalogue, es, e, pid);
    LastTables(catalogue, es, e);
    if |s.db.orders| > p.count || |id| > 50 || !IsAmount(e.cents) {
      assert OrderRejectedAt(catalogue, es + [e], n, pid, p);
    } else {
      assert PlacedAt(catalogue, es + [e], n, pid, p, id);
    }
  }

  /** Why an item row is rejected. */
  lemma ItemIsInsertedExactlyIf(catalogue: Catalogue, es: seq<Event>, pid: Pid, e: Event)
    requires IsRun(catalogue, es) && pid in After(catalogue, es).processes && e.Execute? && e.pid == pid
    requires After(catalogue, es).processes[pid].ItemInserting?
    ensures var s := After(catalogue, es);
            var p := s.processes[pid];
            var p' := Statement(catalogue, s.db, p, e.rows, e.amount, e.cents).1;
            && p.next < |p.rows|
            && if !IsAmount(e.cents) then p' == Done(p.session, Failed, true)
               else HasOrder(p') && p'.session == p.session && p'.rows == p.rows && p'.id == p.id
  {
    hide IsRun, After;
    OrdersAreOwned(catalogue, es);
    ItemsAreCatalogued(catalogue, es);
    var s := After(catalogue, es);
    var p := s.processes[pid];
    assert ProcessOwns(s.db, Creations(catalogue, es), pid, p);
    assert IsCatalogued(catalogue, p.rows[p.next].product, p.rows[p.next].name, p.rows[p.next].price);
    hide Owned, ProcessOwns, OrderOwned;
  }

  lemma FillsNow(catalogue: Catalogue, es: seq<Event>, e: Event, pid: Pid)
    requires IsRun(catalogue, es) && pid in After(catalogue, es).processes && e.Execute? && e.pid == pid
    requires After(catalogue, es).processes[pid].ItemInserting?
    requires var s := After(catalogue, es); Possible(catalogue, s.db, s.processes[pid], e.rows, e.amount, e.cents)
    requires CheckoutStory(catalogue, es, pid, After(catalogue, es).processes[pid])
    ensures CheckoutStory(catalogue, es + [e], pid, Apply(catalogue, After(catalogue, es), e).processes[pid])
  {
    hide IsRun, After, Executes, Money.Stored, Money.Product, WasPlaced;
    var p := After(catalogue, es).processes[pid];
    var n: nat := |es|;
    ItemIsInsertedExactlyIf(catalogue, es, pid, e);
    hide Statement;
    ExecutesLast(catalogue, es, e, pid);
    LastTables(catalogue, es, e);
    if Refuse(pid) in es {
    } else if IsAmount(e.cents) {
      WasPlacedForLonger(catalogue, es, e, pid, p.session, p.rows, p.id);
    } else {
      assert ItemRejectedAt(catalogue, es + [e], n, pid, p);
    }
  }

  lemma ReadsBackNow(catalogue: Catalogue, es: seq<Event>, e: Event, pid: Pid)
    requires IsRun(catalogue, es) && pid in After(catalogue, es).processes && e.Execute? && e.pid == pid
    requires var p := After(catalogue, es).processes[pid]; p.CartClearing? || p.OrderReading? || p.ItemsReading?
    requires CheckoutStory(catalogue, es, pid, After(catalogue, es).processes[pid])
    ensures CheckoutStory(catalogue, es + [e], pid, Apply(catalogue, After(catalogue, es), e).processes[pid])
  {
    hide IsRun, After, Executes, WasPlaced, IsPrefixFor, Exact, ItemsOf;
    var p := After(catalogue, es).processes[pid];
    if p.OrderReading? {
      RereadSeesTheWholeOrder(catalogue, es, pid);
    }
    if Refuse(pid) !in es {
      WasPlacedForLonger(catalogue, es, e, pid, p.session, p.rows, p.id);
      ExecutesLast(catalogue, es, e, pid);
      var n: nat := |es|;
      assert p.ItemsReading? ==> Executes(catalogue, es + [e], n, pid, ItemsReading(p.session, p.rows, p.id));
    }
  }

  lemma CountsNow(catalogue: Catalogue, es: seq<Event>, e: Event, pid: Pid)
    requires pid in After(catalogue, es).processes && e.Execute? && e.pid == pid
    requires After(catalogue, es).processes[pid].Counting?
    ensures CheckoutStory(catalogue, es + [e], pid, Apply(catalogue, After(catalogue, es), e).processes[pid])
  {
    hide After;
  }

  lemma OwnCheckoutStep(catalogue: Catalogue, es: seq<Event>, e: Event, pid: Pid, r: Request)
    requires IsRun(catalogue, es) && Enabled(catalogue, After(catalogue, es), e)
    requires pid in After(catalogue, es).processes && e.Execute? && e.pid == pid && r.Checkout?
    requires Serves(After(catalogue, es).processes[pid], r)
    requires CheckoutStory(catalogue, es, pid, After(catalogue, es).processes[pid])
    ensures CheckoutStory(catalogue, es + [e], pid, Apply(catalogue, After(catalogue, es), e).processes[pid])
  {
    hide IsRun, After, CheckoutStory, Money.Accumulates, Money.Stored, Money.Product, Lists;
    var p := After(catalogue, es).processes[pid];
    if p.CartReading? {
      ReadsCartNow(catalogue, es, e, pid, p.session);
    } else if p.Counting? {
      CountsNow(catalogue, es, e, pid);
    } else if p.OrderInserting? {
      PlacesNow(catalogue, es, e, pid);
    } else if p.ItemInserting? {
      FillsNow(catalogue, es, e, pid);
    } else {
      ReadsBackNow(catalogue, es, e, pid);
    }
  }

  lemma CheckoutStoryBegins(catalogue: Catalogue, es: seq<Event>, pid: Pid, r: Request)
    requires r.Checkout?
    ensures CheckoutStory(catalogue, es, pid, Start(r))
  {}

  lemma CheckoutStoryIsCut(catalogue: Catalogue, es: seq<Event>, pid: Pid, p: Process)
    requires Refuse(pid) in es
    ensures CheckoutStory(catalogue, es, pid, p)
  {}

  lemma {:induction false} CheckoutHasItsStory(catalogue: Catalogue, es: seq<Event>, pid: Pid)
    requires IsRun(catalogue, es) && pid in Requests(es) && Requests(es)[pid].Checkout?
    ensures pid in After(catalogue, es).processes
    ensures CheckoutStory(catalogue, es, pid, After(catalogue, es).processes[pid])
  {
    ProcessesServeTheirRequests(catalogue, es);
    hide CheckoutStory, Statement, Possible;
    var before, e := es[..|es| - 1], es[|es| - 1];
    assert es == before + [e];
    var s, r := After(catalogue, before), Requests(es)[pid];
    if e == Begin(pid, r) {
      CheckoutStoryBegins(catalogue, es, pid, r);
    } else {
      ProcessesServeTheirRequests(catalogue, before);
      CheckoutHasItsStory(catalogue, before, pid);
      if e.pid != pid {
        CheckoutStoryForLonger(catalogue, before, e, pid, s.processes[pid]);
      } else if e.Refuse? {
        CheckoutStoryIsCut(catalogue, es, pid, After(catalogue, es).processes[pid]);
      } else {
        OwnCheckoutStep(catalogue, before, e, pid, r);
      }
    }
  }

  /**
   A checkout is answered CartEmpty only if its SELECT found the session's cart empty; Failed only if another order had
   come in between its count and its INSERT, the id had more than 50 characters, or its total or a subtotal did not fit
   DECIMAL(10,2); and otherwise Created, the order inserted under a free id and read back.
   */
  lemma CheckoutIsAnswered(catalogue: Catalogue, es: seq<Event>, pid: Pid)
    requires IsAnswered(catalogue, es, pid) && Requests(es)[pid].Checkout?
    ensures match AnswerTo(catalogue, es, pid)
            case CartEmpty => FoundNothing(catalogue, es, pid, Requests(es)[pid].session)
            case Failed => WasRejected(catalogue, es, pid)
            case Created => WasCompleted(catalogue, es, pid, Requests(es)[pid].session)
            case _ => false
  {
    hide FoundNothing, WasRejected, WasCompleted;
    CheckoutHasItsStory(catalogue, es, pid);
    ProcessesServeTheirRequests(catalogue, es);
  }
}
