/**
 The cart handlers are not atomic: POST /api/cart looks, then inserts or updates, and a checkout clears the cart
 long after it read it. Still, in every run on any number of instances, cart_items is what some sequential order
 of atomic operations produces, with each operation inside its own request's interval.
 (server/src/server.js:152-305, server/db/schema.sql:52)
 */
module CartLinearizability {
  import opened Tables
  import opened ShopMachine

  // ----- the atomic cart

  datatype Operation =
    | AddUnits(key: CartKey, quantity: int)
    | SetUnits(key: CartKey, quantity: int)
    | RemoveLine(key: CartKey)
    | RemoveAll(session: SessionId)

  function Perform(cart: Cart, op: Operation): Cart {
    match op
    case AddUnits(key, q) => cart[key := if key in cart then cart[key] + q else q]
    case SetUnits(key, q) => if key in cart then cart[key := q] else cart
    case RemoveLine(key) => cart - {key}
    case RemoveAll(session) => WithoutSession(cart, session)
  }

  /** The atomic operation that a request stands for. */
  function OperationOf(r: Request): Operation
    requires !r.Show?
  {
    match r
    case Add(s, product, q) => AddUnits(CartKey(s, product), q)
    case Update(s, product, q) =>
      if q <= 0 then RemoveLine(CartKey(s, product)) else SetUnits(CartKey(s, product), q)
    case Remove(s, product) => RemoveLine(CartKey(s, product))
    case Clear(s) => RemoveAll(s)
    case Checkout(s) => RemoveAll(s)
  }

  predicate Removes(op: Operation, key: CartKey) {
    op == RemoveLine(key) || op == RemoveAll(key.session)
  }

  /** An operation and the request it belongs to. */
  datatype Placed = Placed(pid: Pid, op: Operation)

  /** The operations placed at the moment of one event, in order. */
  type Slot = seq<Placed>

  function PerformSlot(cart: Cart, slot: Slot): Cart {
    if slot == [] then cart else Perform(PerformSlot(cart, slot[..|slot| - 1]), slot[|slot| - 1].op)
  }

  /** The cart that the sequential order produces: slot after slot, from an empty table. */
  function Replay(slots: seq<Slot>): Cart {
    if slots == [] then map[] else PerformSlot(Replay(slots[..|slots| - 1]), slots[|slots| - 1])
  }

  // ----- where each operation is placed

  /** What an event does to the order. */
  datatype Effect = Nothing | Now(op: Operation) | Late(key: CartKey, quantity: int)

  /** Late is an UPDATE that succeeds on no row: its row was removed since the handler saw it. */
  function StatementEffect(catalogue: Catalogue, db: Db, p: Process): Effect {
    match p
    case AddUpdating(s, product, q) =>
      var key := CartKey(s, product);
      if AddQuantity(db, key, q).Rejected? then Nothing
      else if key in db.cart then Now(AddUnits(key, q)) else Late(key, q)
    case AddInserting(s, product, q) =>
      var key := CartKey(s, product);
      if InsertCartItem(catalogue, db, key, q).Accepted? then Now(AddUnits(key, q)) else Nothing
    case Setting(s, product, q) =>
      var key := CartKey(s, product);
      if q <= 0 then Now(RemoveLine(key))
      else if SetQuantity(db, key, q).Accepted? then Now(SetUnits(key, q)) else Nothing
    case Removing(s, product) => Now(RemoveLine(CartKey(s, product)))
    case Clearing(s) => Now(RemoveAll(s))
    case CartClearing(s, _, _) => Now(RemoveAll(s))
    case _ => Nothing
  }

  predicate EndsWithRemoval(slot: Slot, key: CartKey) {
    slot != [] && Removes(slot[|slot| - 1].op, key)
  }

  /** The last slot that ends with a removal of the line; the number of slots if there is none. */
  function LastRemoval(slots: seq<Slot>, key: CartKey): (i: nat)
    ensures i <= |slots|
    ensures i < |slots| ==> EndsWithRemoval(slots[i], key)
    ensures forall j :: 0 <= j < |slots| && EndsWithRemoval(slots[j], key) ==> j <= i < |slots|
  {
    if slots == [] then 0
    else if EndsWithRemoval(slots[|slots| - 1], key) then |slots| - 1
    else
      var i := LastRemoval(slots[..|slots| - 1], key);
      if i < |slots| - 1 then i else |slots|
  }

  /** Put an operation just before the last one of a slot. */
  function BeforeLast(slot: Slot, placed: Placed): Slot
    requires slot != []
  {
    slot[..|slot| - 1] + [placed] + [slot[|slot| - 1]]
  }

  function NextSlots(slots: seq<Slot>, pid: Pid, effect: Effect): seq<Slot> {
    match effect
    case Nothing => slots + [[]]
    case Now(op) => slots + [[Placed(pid, op)]]
    case Late(key, q) =>
      var i := LastRemoval(slots, key);
      if i < |slots| then slots[i := BeforeLast(slots[i], Placed(pid, AddUnits(key, q)))] + [[]] else slots + [[]]
  }

  /** The order built so far, one slot an event, and when each request began, found its row, and was answered. */
  datatype History = History(slots: seq<Slot>, requests: map<Pid, Request>, begun: map<Pid, nat>, looked: map<Pid, nat>,
                             ended: map<Pid, nat>, cleared: set<Pid>)

  /** A request begins. */
  function Open(h: History, pid: Pid, r: Request): History {
    h.(slots := h.slots + [[]], requests := h.requests[pid := r], begun := h.begun[pid := |h.slots|])
  }

  predicate Clears(p: Process, p': Process, cleared: bool) {
    cleared || (p.CartClearing? && !p'.Done?)
  }

  /** A process takes a step: it may look a row up, take effect, clear the cart, or be answered. */
  function Advance(h: History, pid: Pid, p: Process, p': Process, effect: Effect): History {
    var now := |h.slots|;
    h.(slots := NextSlots(h.slots, pid, effect),
       looked := if p.AddLooking? then h.looked[pid := now] else h.looked,
       ended := if p'.Done? then h.ended[pid := now] else h.ended,
       cleared := if Clears(p, p', pid in h.cleared) then h.cleared + {pid} else h.cleared)
  }

  function NextHistory(catalogue: Catalogue, s: State, h: History, e: Event): History {
    match e
    case Begin(pid, r) => Open(h, pid, r)
    case Refuse(pid) =>
      if pid !in s.processes then h.(slots := h.slots + [[]])
      else
        var p := s.processes[pid];
        Advance(h, pid, p, Done(p.session, Failed, Wrote(p)), Nothing)
    case Execute(pid, rows, amount, cents) =>
      if pid !in s.processes then h.(slots := h.slots + [[]])
      else
        var p := s.processes[pid];
        Advance(h, pid, p, Statement(catalogue, s.db, p, rows, amount, cents).1, StatementEffect(catalogue, s.db, p))
  }

  /** The history of a run. */
  function Trace(catalogue: Catalogue, es: seq<Event>): History {
    if es == [] then History([], map[], map[], map[], map[], {})
    else
      var before := es[..|es| - 1];
      NextHistory(catalogue, After(catalogue, before), Trace(catalogue, before), es[|es| - 1])
  }

  // ----- the sequential order produces the table

  lemma {:induction false} SlotExtended(cart: Cart, slot: Slot, placed: Placed)
    ensures PerformSlot(cart, slot + [placed]) == Perform(PerformSlot(cart, slot), placed.op)
  {
    assert (slot + [placed])[..|slot|] == slot;
  }

  /** An addition to a line just before that line's removal changes nothing after the removal. */
  lemma AddBeforeRemoval(cart: Cart, slot: Slot, pid: Pid, key: CartKey, quantity: int)
    requires EndsWithRemoval(slot, key)
    ensures PerformSlot(cart, BeforeLast(slot, Placed(pid, AddUnits(key, quantity)))) == PerformSlot(cart, slot)
  {
    var add, init, last := Placed(pid, AddUnits(key, quantity)), slot[..|slot| - 1], slot[|slot| - 1];
    SlotExtended(cart, init + [add], last);
    SlotExtended(cart, init, add);
    var before := PerformSlot(cart, init);
    assert Perform(Perform(before, add.op), last.op) == Perform(before, last.op);
  }

  lemma {:induction false} ReplayUnchanged(slots: seq<Slot>, i: nat, slot: Slot)
    requires i < |slots|
    requires forall cart :: PerformSlot(cart, slot) == PerformSlot(cart, slots[i])
    ensures Replay(slots[i := slot]) == Replay(slots)
  {
    var n := |slots| - 1;
    if i < n {
      ReplayUnchanged(slots[..n], i, slot);
      assert slots[i := slot][..n] == slots[..n][i := slot];
    } else {
      assert slots[i := slot][..n] == slots[..n];
    }
  }

  lemma ReplayExtended(slots: seq<Slot>, slot: Slot)
    ensures Replay(slots + [slot]) == PerformSlot(Replay(slots), slot)
  {
    assert (slots + [slot])[..|slots|] == slots;
  }

  lemma ReplayNext(slots: seq<Slot>, pid: Pid, effect: Effect)
    ensures Replay(NextSlots(slots, pid, effect)) ==
            if effect.Now? then Perform(Replay(slots), effect.op) else Replay(slots)
  {
    match effect
    case Nothing => ReplayExtended(slots, []);
    case Now(op) =>
      ReplayExtended(slots, [Placed(pid, op)]);
      SlotExtended(Replay(slots), [], Placed(pid, op));
    case Late(key, q) =>
      var i := LastRemoval(slots, key);
      if i < |slots| {
        var slot := BeforeLast(slots[i], Placed(pid, AddUnits(key, q)));
        forall cart ensures PerformSlot(cart, slot) == PerformSlot(cart, slots[i]) {
          AddBeforeRemoval(cart, slots[i], pid, key, q);
        }
        ReplayUnchanged(slots, i, slot);
        ReplayExtended(slots[i := slot], []);
      } else {
        ReplayExtended(slots, []);
      }
  }

  // ----- each effective request is placed exactly once

  function TimesIn(slot: Slot, pid: Pid): nat {
    if slot == [] then 0 else TimesIn(slot[..|slot| - 1], pid) + if slot[|slot| - 1].pid == pid then 1 else 0
  }

  /** How often a request occurs in the order. */
  function Times(slots: seq<Slot>, pid: Pid): nat {
    if slots == [] then 0 else Times(slots[..|slots| - 1], pid) + TimesIn(slots[|slots| - 1], pid)
  }

  lemma TimesInBeforeLast(slot: Slot, placed: Placed, pid: Pid)
    requires slot != []
    ensures TimesIn(BeforeLast(slot, placed), pid) == TimesIn(slot, pid) + if placed.pid == pid then 1 else 0
  {
    var init, last := slot[..|slot| - 1], slot[|slot| - 1];
    assert (init + [placed] + [last])[..|slot|] == init + [placed];
    assert (init + [placed])[..|init|] == init;
  }

  lemma {:induction false} TimesReplaced(slots: seq<Slot>, i: nat, slot: Slot, pid: Pid)
    requires i < |slots|
    ensures Times(slots[i := slot], pid) + TimesIn(slots[i], pid) == Times(slots, pid) + TimesIn(slot, pid)
  {
    var n := |slots| - 1;
    if i < n {
      TimesReplaced(slots[..n], i, slot, pid);
      assert slots[i := slot][..n] == slots[..n][i := slot];
    } else {
      assert slots[i := slot][..n] == slots[..n];
    }
  }

  lemma TimesExtended(slots: seq<Slot>, slot: Slot, pid: Pid)
    ensures Times(slots + [slot], pid) == Times(slots, pid) + TimesIn(slot, pid)
  {
    assert (slots + [slot])[..|slots|] == slots;
  }

  lemma TimesNext(slots: seq<Slot>, author: Pid, effect: Effect, pid: Pid)
    requires effect.Late? ==> LastRemoval(slots, effect.key) < |slots|
    ensures Times(NextSlots(slots, author, effect), pid) ==
            Times(slots, pid) + if pid == author && !effect.Nothing? then 1 else 0
  {
    match effect
    case Nothing => TimesExtended(slots, [], pid);
    case Now(op) =>
      TimesExtended(slots, [Placed(author, op)], pid);
      assert [Placed(author, op)][..0] == [];
    case Late(key, q) =>
      var i, placed := LastRemoval(slots, key), Placed(author, AddUnits(key, q));
      var slot := BeforeLast(slots[i], placed);
      TimesInBeforeLast(slots[i], placed, pid);
      TimesReplaced(slots, i, slot, pid);
      TimesExtended(slots[i := slot], [], pid);
  }

  // ----- the invariant

  /** A cart request takes effect when its write statement is accepted; a checkout, when it clears the cart. */
  predicate TookEffect(p: Process, r: Request, cleared: bool) {
    if r.Checkout? then cleared else Wrote(p)
  }

  predicate AfterClearing(p: Process) {
    p.OrderReading? || p.ItemsReading? || p.Done?
  }

  /** begun < looked < now, and exactly the answered requests have ended. */
  ghost predicate Timed(processes: map<Pid, Process>, h: History) {
    && h.begun.Keys == processes.Keys
    && (forall pid :: pid in h.begun ==> h.begun[pid] < |h.slots|)
    && (forall pid :: pid in h.looked ==> pid in h.begun && h.begun[pid] < h.looked[pid] < |h.slots|)
    && (forall pid :: pid in h.ended ==> pid in processes && h.ended[pid] < |h.slots|)
    && (forall pid :: pid in processes ==> (pid in h.ended <==> processes[pid].Done?))
  }

  /** An update in flight still has its row, or a removal of the row has been placed since the handler looked. */
  ghost predicate RowOrRemoval(cart: Cart, slots: seq<Slot>, looked: nat, key: CartKey) {
    key in cart || exists j :: looked < j < |slots| && EndsWithRemoval(slots[j], key)
  }

  ghost predicate RowsOrRemovals(cart: Cart, processes: map<Pid, Process>, h: History) {
    forall pid :: pid in processes && processes[pid].AddUpdating? ==>
      pid in h.looked
      && RowOrRemoval(cart, h.slots, h.looked[pid], CartKey(processes[pid].session, processes[pid].product))
  }

  /** The operation is its request's, placed after the request began and no later than its answer. */
  ghost predicate WithinRequest(h: History, placed: Placed, i: nat) {
    && placed.pid in h.requests && !h.requests[placed.pid].Show? && placed.op == OperationOf(h.requests[placed.pid])
    && placed.pid in h.begun && h.begun[placed.pid] < i
    && (placed.pid in h.ended ==> i <= h.ended[placed.pid])
  }

  ghost predicate AllWithin(h: History) {
    forall i, placed :: 0 <= i < |h.slots| && placed in h.slots[i] ==> WithinRequest(h, placed, i)
  }

  /** Each effective request occurs exactly once in the order, every other one not at all. */
  ghost predicate PlacedOnce(processes: map<Pid, Process>, h: History) {
    && (forall pid :: pid in h.cleared ==> pid in processes && AfterClearing(processes[pid]))
    && (forall pid :: pid in processes && pid in h.requests ==>
          Times(h.slots, pid) == if TookEffect(processes[pid], h.requests[pid], pid in h.cleared) then 1 else 0)
    && (forall pid :: pid !in processes ==> Times(h.slots, pid) == 0)
  }

  ghost predicate Linearized(cart: Cart, processes: map<Pid, Process>, h: History) {
    && Replay(h.slots) == cart
    && AllServe(processes, h.requests)
    && Timed(processes, h)
    && RowsOrRemovals(cart, processes, h)
    && AllWithin(h)
    && PlacedOnce(processes, h)
  }

  // ----- what the invariant needs of one statement

  function CartAfter(cart: Cart, effect: Effect): Cart {
    if effect.Now? then Perform(cart, effect.op) else cart
  }

  /** An effect is that of its request; a late one is an update that misses its row. */
  ghost predicate EffectFits(cart: Cart, p: Process, r: Request, effect: Effect) {
    && (!effect.Nothing? ==> !r.Show?)
    && (effect.Now? ==> effect.op == OperationOf(r))
    && (effect.Late? ==> p.AddUpdating? && effect.key == CartKey(p.session, p.product) && effect.key !in cart &&
                         AddUnits(effect.key, effect.quantity) == OperationOf(r))
  }

  /** A move takes effect exactly when it is not Nothing, and only once. */
  predicate EffectCounts(p: Process, p': Process, r: Request, effect: Effect, cleared: bool) {
    var cleared' := Clears(p, p', cleared);
    && (cleared' ==> AfterClearing(p'))
    && (!effect.Nothing? ==> !TookEffect(p, r, cleared))
    && (TookEffect(p', r, cleared') <==> !effect.Nothing? || TookEffect(p, r, cleared))
  }

  predicate Looks(cart: Cart, p: Process, p': Process, effect: Effect) {
    p'.AddUpdating? ==> p.AddLooking? && CartKey(p'.session, p'.product) in cart && effect.Nothing?
  }

  /** A process's move from p to p', with its effect on the cart, as its request allows it. */
  ghost predicate IsMove(cart: Cart, p: Process, p': Process, r: Request, effect: Effect, cleared: bool) {
    && IsActive(p) && Serves(p', r)
    && Looks(cart, p, p', effect) && EffectFits(cart, p, r, effect) && EffectCounts(p, p', r, effect, cleared)
  }

  lemma StatementPerforms(catalogue: Catalogue, db: Db, p: Process, e: Event)
    requires e.Execute?
    ensures Statement(catalogue, db, p, e.rows, e.amount, e.cents).0.cart ==
              CartAfter(db.cart, StatementEffect(catalogue, db, p))
  {
    if ChangesCart(p) {
      match p
      case AddUpdating(s, product, q) =>
      case AddInserting(s, product, q) =>
      case Setting(s, product, q) =>
      case Removing(s, product) =>
      case Clearing(s) =>
      case CartClearing(s, _, _) =>
    } else {
      StatementFrame(catalogue, db, p, e.rows, e.amount, e.cents);
      assert StatementEffect(catalogue, db, p) == Nothing;
    }
  }

  lemma StatementLooks(catalogue: Catalogue, db: Db, p: Process, e: Event)
    requires e.Execute? && IsActive(p)
    ensures Looks(db.cart, p, Statement(catalogue, db, p, e.rows, e.amount, e.cents).1,
                  StatementEffect(catalogue, db, p))
  {}

  lemma StatementEffectFits(catalogue: Catalogue, db: Db, p: Process, r: Request)
    requires Serves(p, r)
    ensures EffectFits(db.cart, p, r, StatementEffect(catalogue, db, p))
  {}

  lemma StatementEffectCounts(catalogue: Catalogue, db: Db, p: Process, e: Event, r: Request, cleared: bool)
    requires e.Execute? && IsActive(p) && Serves(p, r) && (cleared ==> AfterClearing(p))
    ensures EffectCounts(p, Statement(catalogue, db, p, e.rows, e.amount, e.cents).1, r,
                         StatementEffect(catalogue, db, p), cleared)
  {}

  lemma StatementsMove(catalogue: Catalogue, db: Db, p: Process, e: Event, r: Request, cleared: bool)
    requires e.Execute? && IsActive(p) && Serves(p, r) && (cleared ==> AfterClearing(p))
    ensures IsMove(db.cart, p, Statement(catalogue, db, p, e.rows, e.amount, e.cents).1, r,
                   StatementEffect(catalogue, db, p), cleared)
  {
    StatementServes(catalogue, db, p, e.rows, e.amount, e.cents, r);
    StatementLooks(catalogue, db, p, e);
    StatementEffectFits(catalogue, db, p, r);
    StatementEffectCounts(catalogue, db, p, e, r, cleared);
  }

  lemma RefusalsMove(cart: Cart, p: Process, r: Request, cleared: bool)
    requires IsActive(p) && Serves(p, r) && (cleared ==> AfterClearing(p))
    ensures IsMove(cart, p, Done(p.session, Failed, Wrote(p)), r, Nothing, cleared)
  {}

  // ----- a move keeps the invariant, part by part

  lemma NextSlotsKeepRemovals(slots: seq<Slot>, pid: Pid, effect: Effect, j: nat, key: CartKey)
    requires j < |slots| && EndsWithRemoval(slots[j], key)
    ensures EndsWithRemoval(NextSlots(slots, pid, effect)[j], key)
  {}

  lemma RowOrRemovalStays(cart: Cart, slots: seq<Slot>, pid: Pid, effect: Effect, looked: nat, key: CartKey)
    requires RowOrRemoval(cart, slots, looked, key) && looked < |slots|
    ensures RowOrRemoval(CartAfter(cart, effect), NextSlots(slots, pid, effect), looked, key)
  {
    var slots' := NextSlots(slots, pid, effect);
    if j :| looked < j < |slots| && EndsWithRemoval(slots[j], key) {
      NextSlotsKeepRemovals(slots, pid, effect, j, key);
      assert EndsWithRemoval(slots'[j], key);
    } else if effect.Now? && key !in Perform(cart, effect.op) {
      assert Removes(effect.op, key);
      assert slots'[|slots|] == [Placed(pid, effect.op)];
      assert EndsWithRemoval(slots'[|slots|], key);
    }
  }

  lemma MoveKeepsRows(cart: Cart, processes: map<Pid, Process>, h: History, pid: Pid, p': Process, effect: Effect)
    requires RowsOrRemovals(cart, processes, h) && Timed(processes, h) && pid in processes
    requires p'.AddUpdating? ==>
               processes[pid].AddLooking? && CartKey(p'.session, p'.product) in cart && effect.Nothing?
    ensures RowsOrRemovals(CartAfter(cart, effect), processes[pid := p'], Advance(h, pid, processes[pid], p', effect))
  {
    forall q | q in processes && q != pid && processes[q].AddUpdating?
      ensures RowOrRemoval(CartAfter(cart, effect), NextSlots(h.slots, pid, effect), h.looked[q],
                           CartKey(processes[q].session, processes[q].product))
    {
      RowOrRemovalStays(cart, h.slots, pid, effect, h.looked[q], CartKey(processes[q].session, processes[q].product));
    }
  }

  /** What a move adds to the order, and where. */
  lemma NextSlotsMember(slots: seq<Slot>, pid: Pid, effect: Effect, i: nat, placed: Placed)
    requires i < |NextSlots(slots, pid, effect)| && placed in NextSlots(slots, pid, effect)[i]
    ensures || (i < |slots| && placed in slots[i])
            || (effect.Now? && i == |slots| && placed == Placed(pid, effect.op))
            || (effect.Late? && i == LastRemoval(slots, effect.key) < |slots| &&
                placed == Placed(pid, AddUnits(effect.key, effect.quantity)))
  {}

  lemma MoveKeepsWithin(cart: Cart, processes: map<Pid, Process>, h: History, pid: Pid, p': Process, effect: Effect)
    requires AllWithin(h) && Timed(processes, h) && AllServe(processes, h.requests)
    requires RowsOrRemovals(cart, processes, h)
    requires pid in processes && IsMove(cart, processes[pid], p', h.requests[pid], effect, pid in h.cleared)
    ensures AllWithin(Advance(h, pid, processes[pid], p', effect))
  {
    var h' := Advance(h, pid, processes[pid], p', effect);
    forall i, placed | 0 <= i < |h'.slots| && placed in h'.slots[i] ensures WithinRequest(h', placed, i) {
      NextSlotsMember(h.slots, pid, effect, i, placed);
      if i < |h.slots| && placed in h.slots[i] {
        assert WithinRequest(h, placed, i);
      }
    }
  }

  lemma MoveKeepsOnce(processes: map<Pid, Process>, h: History, pid: Pid, p': Process, effect: Effect, cart: Cart)
    requires PlacedOnce(processes, h) && AllServe(processes, h.requests)
    requires pid in processes && IsMove(cart, processes[pid], p', h.requests[pid], effect, pid in h.cleared)
    requires effect.Late? ==> LastRemoval(h.slots, effect.key) < |h.slots|
    ensures PlacedOnce(processes[pid := p'], Advance(h, pid, processes[pid], p', effect))
  {
    hide Serves, Looks, EffectFits, TookEffect, Times, NextSlots, AfterClearing;
    assert EffectCounts(processes[pid], p', h.requests[pid], effect, pid in h.cleared);
    hide IsMove;
    var h', processes' := Advance(h, pid, processes[pid], p', effect), processes[pid := p'];
    forall q
      ensures q in processes' && q in h'.requests ==>
        Times(h'.slots, q) == if TookEffect(processes'[q], h'.requests[q], q in h'.cleared) then 1 else 0
      ensures q !in processes' ==> Times(h'.slots, q) == 0
    {
      TimesNext(h.slots, pid, effect, q);
    }
  }

  lemma MoveKeepsTimed(processes: map<Pid, Process>, h: History, pid: Pid, p': Process, effect: Effect)
    requires Timed(processes, h) && pid in processes && IsActive(processes[pid])
    ensures Timed(processes[pid := p'], Advance(h, pid, processes[pid], p', effect))
  {}

  /** An update that hits no row always finds a removal to be placed before. */
  lemma LateHasRemoval(cart: Cart, processes: map<Pid, Process>, h: History, pid: Pid, p': Process, effect: Effect)
    requires RowsOrRemovals(cart, processes, h)
    requires pid in processes && pid in h.requests && EffectFits(cart, processes[pid], h.requests[pid], effect)
    ensures effect.Late? ==> LastRemoval(h.slots, effect.key) < |h.slots|
  {}

  lemma MoveKeepsLinearized(cart: Cart, processes: map<Pid, Process>, h: History, pid: Pid, p': Process, effect: Effect)
    requires Linearized(cart, processes, h)
    requires pid in processes && IsMove(cart, processes[pid], p', h.requests[pid], effect, pid in h.cleared)
    ensures Linearized(CartAfter(cart, effect), processes[pid := p'], Advance(h, pid, processes[pid], p', effect))
  {
    assert Replay(NextSlots(h.slots, pid, effect)) == CartAfter(cart, effect) by {
      ReplayNext(h.slots, pid, effect);
    }
    OneMoreServes(processes, h.requests, pid, p', h.requests[pid]);
    assert h.requests[pid := h.requests[pid]] == h.requests;
    MoveKeepsTimed(processes, h, pid, p', effect);
    MoveKeepsRows(cart, processes, h, pid, p', effect);
    MoveKeepsWithin(cart, processes, h, pid, p', effect);
    LateHasRemoval(cart, processes, h, pid, p', effect);
    MoveKeepsOnce(processes, h, pid, p', effect, cart);
  }

  lemma BeginKeepsTimed(processes: map<Pid, Process>, h: History, pid: Pid, r: Request)
    requires Timed(processes, h) && pid !in processes
    ensures Timed(processes[pid := Start(r)], Open(h, pid, r))
  {
    assert IsActive(Start(r));
  }

  lemma BeginKeepsRows(cart: Cart, processes: map<Pid, Process>, h: History, pid: Pid, r: Request)
    requires RowsOrRemovals(cart, processes, h) && Timed(processes, h) && pid !in processes
    ensures RowsOrRemovals(cart, processes[pid := Start(r)], Open(h, pid, r))
  {
    forall q | q in processes && processes[q].AddUpdating?
      ensures RowOrRemoval(cart, h.slots + [[]], h.looked[q], CartKey(processes[q].session, processes[q].product))
    {
      RowOrRemovalStays(cart, h.slots, pid, Nothing, h.looked[q], CartKey(processes[q].session, processes[q].product));
    }
  }

  lemma BeginKeepsWithin(processes: map<Pid, Process>, h: History, pid: Pid, r: Request)
    requires AllWithin(h) && Timed(processes, h) && AllServe(processes, h.requests) && pid !in processes
    ensures AllWithin(Open(h, pid, r))
  {
    forall i, placed | 0 <= i < |h.slots| && placed in h.slots[i] ensures WithinRequest(Open(h, pid, r), placed, i) {
      assert WithinRequest(h, placed, i);
    }
  }

  lemma BeginKeepsOnce(processes: map<Pid, Process>, h: History, pid: Pid, r: Request)
    requires PlacedOnce(processes, h) && AllServe(processes, h.requests) && pid !in processes
    ensures PlacedOnce(processes[pid := Start(r)], Open(h, pid, r))
  {
    var h', processes' := Open(h, pid, r), processes[pid := Start(r)];
    assert !Wrote(Start(r)) && pid !in h.cleared;
    assert processes.Keys == h.requests.Keys;
    hide Serves, Times, Wrote, AfterClearing, Start;
    forall q
      ensures q in processes' && q in h'.requests ==>
        Times(h'.slots, q) == if TookEffect(processes'[q], h'.requests[q], q in h'.cleared) then 1 else 0
      ensures q !in processes' ==> Times(h'.slots, q) == 0
    {
      TimesExtended(h.slots, [], q);
      if q == pid {
        assert Times(h.slots, pid) == 0;
      }
    }
  }

  lemma BeginKeepsLinearized(cart: Cart, processes: map<Pid, Process>, h: History, pid: Pid, r: Request)
    requires Linearized(cart, processes, h) && pid !in processes
    ensures Linearized(cart, processes[pid := Start(r)], Open(h, pid, r))
  {
    ReplayExtended(h.slots, []);
    BeginKeepsTimed(processes, h, pid, r);
    OneMoreServes(processes, h.requests, pid, Start(r), r);
    BeginKeepsRows(cart, processes, h, pid, r);
    BeginKeepsWithin(processes, h, pid, r);
    BeginKeepsOnce(processes, h, pid, r);
  }

  // ----- linearizability

  lemma StepKeepsLinearized(catalogue: Catalogue, s: State, h: History, e: Event)
    requires Enabled(catalogue, s, e) && Linearized(s.db.cart, s.processes, h)
    ensures var s' := Apply(catalogue, s, e); Linearized(s'.db.cart, s'.processes, NextHistory(catalogue, s, h, e))
  {
    match e
    case Begin(pid, r) => BeginKeepsLinearized(s.db.cart, s.processes, h, pid, r);
    case Refuse(pid) =>
      var p := s.processes[pid];
      RefusalsMove(s.db.cart, p, h.requests[pid], pid in h.cleared);
      MoveKeepsLinearized(s.db.cart, s.processes, h, pid, Done(p.session, Failed, Wrote(p)), Nothing);
    case Execute(pid, rows, amount, cents) =>
      var p := s.processes[pid];
      var p' := Statement(catalogue, s.db, p, rows, amount, cents).1;
      StatementPerforms(catalogue, s.db, p, e);
      StatementsMove(catalogue, s.db, p, e, h.requests[pid], pid in h.cleared);
      MoveKeepsLinearized(s.db.cart, s.processes, h, pid, p', StatementEffect(catalogue, s.db, p));
  }

  /**
   In every run on any number of instances there is one sequential order of atomic operations that produces
   cart_items, holds each effective request exactly once and every other request not at all, and has each
   operation inside its own request's interval.
   */
  lemma {:induction false} CartsAreLinearizable(catalogue: Catalogue, es: seq<Event>)
    requires IsRun(catalogue, es)
    ensures var s, h := After(catalogue, es), Trace(catalogue, es); Linearized(s.db.cart, s.processes, h)
  {
    if es != [] {
      var before := es[..|es| - 1];
      CartsAreLinearizable(catalogue, before);
      StepKeepsLinearized(catalogue, After(catalogue, before), Trace(catalogue, before), es[|es| - 1]);
    }
  }

  /** The order respects real time: a request answered before another one began comes first. */
  lemma RealTimeOrder(catalogue: Catalogue, es: seq<Event>, i: nat, j: nat, a: Placed, b: Placed)
    requires IsRun(catalogue, es)
    requires var h := Trace(catalogue, es);
             && i < |h.slots| && j < |h.slots| && a in h.slots[i] && b in h.slots[j]
             && a.pid in h.ended && b.pid in h.begun && h.ended[a.pid] < h.begun[b.pid]
    ensures i < j
  {
    CartsAreLinearizable(catalogue, es);
    var h := Trace(catalogue, es);
    assert WithinRequest(h, a, i) && WithinRequest(h, b, j);
  }
}
