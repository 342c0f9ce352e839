/** The `items` store module (src/store.js:140-292): a list of items, the
    `ADD_ITEM` mutation that pushes one, the `ADD_ITEM` action that runs the
    optimistic ledger over that mutation, and the `ADD_ITEM_OPTMISTIC` action that
    wraps an asynchronous call in a BEGIN and a closing dispatch. */
module Items {
  import opened Basics
  import opened Optimistic
  import Uid

  /** An entry of `state.items`: the caller's item fields (`data`) spread together
      with the `pending` and `error` flags the coordinator sets. */
  datatype Item = Item(data: string, pending: bool, error: bool)

  /** `action.payload`. */
  datatype Payload = Payload(item: Item)

  type ItemAction = Action<Payload>

  type ItemsStore = Store<seq<Item>, Payload>

  /** What a dispatch can throw. */
  datatype JsError = ReferenceError(identifier: string)

  /** The `ADD_ITEM` mutation: `state.items.push(action.payload.item)`. */
  function AddItemMutation(items: seq<Item>, a: ItemAction): seq<Item>
  {
    items + [a.payload.item]
  }

  /** The items a queue pushes, in queue order. */
  function ItemsOf(q: seq<ItemAction>): (r: seq<Item>)
    ensures |r| == |q|
    ensures forall i :: 0 <= i < |q| ==> r[i] == q[i].payload.item
    decreases |q|
  {
    if |q| == 0 then [] else [q[0].payload.item] + ItemsOf(q[1..])
  }

  /** Replaying a queue with the push mutation appends the queued items, in queue
      order, after the items the replay starts from. */
  lemma {:induction false} ReplayAppendsItems(s: seq<Item>, q: seq<ItemAction>)
    ensures Replay(AddItemMutation, s, q) == s + ItemsOf(q)
    decreases |q|
  {
    if |q| > 0 {
      var x := q[0].payload.item;
      ReplayAppendsItems(s + [x], q[1..]);
      assert ItemsOf(q) == [x] + ItemsOf(q[1..]);
    }
  }

  /** The `ADD_ITEM` action exactly as written. BEGIN and COMMIT run the ledger;
      any other phase reaches the right operand of `type === 'COMMIT' || tpye ===
      'REVERT'`, whose undeclared identifier throws before anything changes. On the
      phases it accepts it agrees with the generic ledger step. */
  function AddItemAsWritten(st: ItemsStore, a: ItemAction): (r: Result<ItemsStore, JsError>)
    ensures r.Err? <==> a.optimist.phase == Revert
    ensures r.Err? ==> r.error == ReferenceError("tpye")
    ensures r.Ok? ==> r.value == Step(AddItemMutation, st, a)
  {
    match a.optimist.phase
    case Begin => Ok(StepBegin(AddItemMutation, st, a))
    case Commit => Ok(StepClose(AddItemMutation, st, a))
    case Revert => Err(ReferenceError("tpye"))
  }

  /** The `ADD_ITEM` action as evidently intended: COMMIT and REVERT take the same
      branch, as in the generic module. */
  function AddItem(st: ItemsStore, a: ItemAction): ItemsStore
  {
    Step(AddItemMutation, st, a)
  }

  /** The corrected action handles a REVERT exactly like a COMMIT with the same
      payload and id: the same visible items and the same snapshot, and a queue
      that differs only in the phase recorded on the settled entries. */
  lemma RevertClosesLikeCommit(st: ItemsStore, p: Payload, id: int)
    ensures var rc := AddItem(st, Action(p, Optimist(Commit, id)));
      var rr := AddItem(st, Action(p, Optimist(Revert, id)));
      && rr.state == rc.state
      && rr.ledger.snapshot == rc.ledger.snapshot
      && |rr.ledger.queue| == |rc.ledger.queue|
      && forall i :: 0 <= i < |rr.ledger.queue| ==>
           rr.ledger.queue[i].payload == rc.ledger.queue[i].payload
           && rr.ledger.queue[i].optimist.id == rc.ledger.queue[i].optimist.id
  {
    var q := st.ledger.queue;
    var c := Action(p, Optimist(Commit, id));
    var v := Action(p, Optimist(Revert, id));
    var qc := Substitute(q, c);
    var qv := Substitute(q, v);
    var base := RollbackBase(st);
    ReplayAppendsItems(base, qc);
    ReplayAppendsItems(base, qv);
    assert ItemsOf(qc) == ItemsOf(qv);
  }

  /** A close settles items in place. On a valid store with an open window, the
      list is the snapshot's items followed by one item per queued entry. The close
      keeps that shape: the snapshot's items stay as they are, the closing action's
      item takes the place of each pending item of the closing transaction, and
      every other item is unchanged. */
  lemma CloseSettlesInPlace(st: ItemsStore, a: ItemAction)
    requires Valid(AddItemMutation, st) && IsClose(a) && st.ledger.snapshot.Some?
    ensures var r := AddItem(st, a); var snap := st.ledger.snapshot.value; var q := st.ledger.queue;
      && |st.state| == |snap| + |q|
      && |r.state| == |st.state|
      && r.state[..|snap|] == snap
      && forall i :: 0 <= i < |q| ==>
           r.state[|snap| + i] == (if ClosedBy(q[i], a.optimist.id) then a.payload.item else st.state[|snap| + i])
  {
    var snap := st.ledger.snapshot.value;
    var q := st.ledger.queue;
    ReplayAppendsItems(snap, q);
    ReplayAppendsItems(snap, Substitute(q, a));
  }

  /** Finding: a REVERT dispatched to the `ADD_ITEM` action as written throws,
      where the intended action closes the transaction. With items 0 and 1 pending,
      REVERT 0 fails outright; the corrected action shows item 0 as errored and item
      1 still pending, retaining the snapshot and item 1's open BEGIN. */
  lemma RevertIntoAddItemThrows(init: seq<Item>, a: string, b: string)
    ensures var st2 := AddItem(AddItem(Store(init, EmptyLedger()), BeginAction(a, 0)), BeginAction(b, 1));
      var revert0 := Action(Payload(Item(a, false, true)), Optimist(Revert, 0));
      && AddItemAsWritten(st2, revert0) == Err(ReferenceError("tpye"))
      && AddItem(st2, revert0).state == init + [Item(a, false, true), Item(b, true, false)]
      && AddItem(st2, revert0).ledger == Ledger(Some(init), [revert0, BeginAction(b, 1)])
  {
    var st0: ItemsStore := Store(init, EmptyLedger());
    var st1 := AddItem(st0, BeginAction(a, 0));
    var st2 := AddItem(st1, BeginAction(b, 1));
    assert [BeginAction(a, 0)] + [BeginAction(b, 1)] == [BeginAction(a, 0), BeginAction(b, 1)];
    var revert0 := Action(Payload(Item(a, false, true)), Optimist(Revert, 0));
    var q := [BeginAction(a, 0), BeginAction(b, 1)];
    assert Substitute(q, revert0) == [revert0, BeginAction(b, 1)];
    assert OpenOther(q[1], 0);
    ReplayPair(AddItemMutation, init, revert0, BeginAction(b, 1));
  }

  /** The item the BEGIN dispatch pushes: marked pending, not errored. */
  function PendingItem(data: string): Item
  {
    Item(data, true, false)
  }

  /** The item the closing dispatch pushes: no longer pending, errored iff the
      asynchronous call failed. */
  function SettledItem(data: string, success: bool): Item
  {
    Item(data, false, !success)
  }

  /** The first dispatch of `ADD_ITEM_OPTMISTIC`. */
  function BeginAction(data: string, id: int): ItemAction
  {
    Action(Payload(PendingItem(data)), Optimist(Begin, id))
  }

  /** The second dispatch of `ADD_ITEM_OPTMISTIC`: COMMIT on success and, since the
      failure branch also sends `type: 'COMMIT'`, COMMIT on failure too. */
  function SettleAction(data: string, id: int, success: bool): ItemAction
  {
    Action(Payload(SettledItem(data, success)), Optimist(Commit, id))
  }

  /** A coordinator suspended in its `await`: the id it drew and the item it adds. */
  datatype InFlight = InFlight(id: nat, data: string)

  /** `ADD_ITEM_OPTMISTIC` up to its `await`: draw an id with `getUid()` and
      dispatch the pending item's BEGIN. The dispatch never throws, the suspended
      coordinator holds the drawn id (the generator's counter), the generator moves
      past it, and the pending item is visible at the end of the list. */
  function LaunchAddItem(st: ItemsStore, gen: Uid.Generator, data: string): (r: Result<(ItemsStore, Uid.Generator, InFlight), JsError>)
    ensures r.Ok?
    ensures r.value.2 == InFlight(gen.next, data)
    ensures r.value.1.next == gen.next + 1
    ensures r.value.0.state == st.state + [PendingItem(data)]
  {
    var (id, gen') := Uid.Take(gen);
    match AddItemAsWritten(st, BeginAction(data, id))
    case Ok(st') => Ok((st', gen', InFlight(id, data)))
    case Err(e) => Err(e)
  }

  /** `ADD_ITEM_OPTMISTIC` after its `await` settles (`success` abstracts whether
      `delay` resolved): dispatch the closing action under the same id. Because it
      is always a COMMIT, the dispatch never reaches the `tpye` typo. */
  function SettleAddItem(st: ItemsStore, f: InFlight, success: bool): (r: Result<ItemsStore, JsError>)
    ensures r.Ok?
    ensures r.value == AddItem(st, SettleAction(f.data, f.id, success))
  {
    AddItemAsWritten(st, SettleAction(f.data, f.id, success))
  }

  /** `ADD_ITEM_OPTMISTIC` when no other dispatch runs during its `await`. */
  function AddItemOptimistic(st: ItemsStore, gen: Uid.Generator, data: string, success: bool): (r: Result<(ItemsStore, Uid.Generator), JsError>)
    ensures r.Ok?
    ensures r.value.1.next == gen.next + 1
  {
    match LaunchAddItem(st, gen, data)
    case Err(e) => Err(e)
    case Ok((st', gen', f)) =>
      match SettleAddItem(st', f, success)
      case Err(e) => Err(e)
      case Ok(st'') => Ok((st'', gen'))
  }

  /** Ids drawn from `gen` are fresh for `q`: every BEGIN still queued drew a smaller one. */
  predicate IdsBelow(q: seq<ItemAction>, gen: Uid.Generator)
  {
    forall i :: 0 <= i < |q| && q[i].optimist.phase == Begin ==> q[i].optimist.id < gen.next
  }

  /** The BEGIN half keeps the generator ahead of every queued BEGIN id: it
      queues the id it drew and moves the generator past it. */
  lemma LaunchKeepsIdsBelow(st: ItemsStore, gen: Uid.Generator, data: string)
    requires IdsBelow(st.ledger.queue, gen)
    ensures var r := LaunchAddItem(st, gen, data).value; IdsBelow(r.0.ledger.queue, r.1)
  {
  }

  /** The closing half queues no BEGIN (it replaces BEGINs by its COMMIT or clears
      the queue), so the generator stays ahead of every queued BEGIN id. */
  lemma SettleKeepsIdsBelow(st: ItemsStore, gen: Uid.Generator, f: InFlight, success: bool)
    requires IdsBelow(st.ledger.queue, gen)
    ensures IdsBelow(SettleAddItem(st, f, success).value.ledger.queue, gen)
  {
  }

  /** Every `ADD_ITEM_OPTMISTIC` currently in flight, sharing one store and one
      generator: `waiting` holds the coordinators suspended in their `await`. */
  datatype Coordinators = Coordinators(store: ItemsStore, gen: Uid.Generator, waiting: seq<InFlight>)

  /** What can happen next: a new coordinator starts, or the `await` of the
      `index`-th waiting one settles with outcome `success`. */
  datatype Event = Launch(data: string) | Settle(index: nat, success: bool)

  /** One event. Settling a coordinator that is not waiting does nothing. */
  function Perform(c: Coordinators, e: Event): Coordinators
  {
    match e
    case Launch(data) =>
      (match LaunchAddItem(c.store, c.gen, data)
       case Ok((st, gen, f)) => Coordinators(st, gen, c.waiting + [f])
       case Err(_) => c)
    case Settle(k, success) =>
      if k < |c.waiting| then
        match SettleAddItem(c.store, c.waiting[k], success)
        case Ok(st) => Coordinators(st, c.gen, c.waiting[..k] + c.waiting[k + 1..])
        case Err(_) => c
      else c
  }

  /** Any interleaving of coordinator starts and settlements. */
  function Schedule(c: Coordinators, events: seq<Event>): Coordinators
    decreases |events|
  {
    if |events| == 0 then c else Schedule(Perform(c, events[0]), events[1..])
  }

  /** The ledger invariant, the generator ahead of every queued BEGIN id, and the
      queued BEGIN ids pairwise distinct. */
  ghost predicate Sound(c: Coordinators)
  {
    && Valid(AddItemMutation, c.store)
    && IdsBelow(c.store.ledger.queue, c.gen)
    && OpenIdsUnique(c.store.ledger.queue)
  }

  /** The store as the module creates it, with a fresh generator and nothing in flight. */
  lemma InitialIsSound(init: seq<Item>)
    ensures Sound(Coordinators(Store(init, EmptyLedger()), Uid.Initial, []))
  {
  }

  /** Each event keeps the coordinators sound: a BEGIN draws an id no queued BEGIN
      carries, so open ids stay unique and the ledger invariant holds. */
  lemma PerformKeepsSound(c: Coordinators, e: Event)
    requires Sound(c)
    ensures Sound(Perform(c, e))
  {
    match e
    case Launch(data) =>
      var b := BeginAction(data, c.gen.next);
      assert !IsOpen(c.store.ledger.queue, c.gen.next);
      StepPreservesValid(AddItemMutation, c.store, b);
      StepKeepsOpenIdsUnique(AddItemMutation, c.store, b);
      LaunchKeepsIdsBelow(c.store, c.gen, data);
    case Settle(k, success) =>
      if k < |c.waiting| {
        var f := c.waiting[k];
        var a := SettleAction(f.data, f.id, success);
        StepPreservesValid(AddItemMutation, c.store, a);
        StepKeepsOpenIdsUnique(AddItemMutation, c.store, a);
        SettleKeepsIdsBelow(c.store, c.gen, f, success);
      }
  }

  /** Under any interleaving of any number of `ADD_ITEM_OPTMISTIC` runs, the ids
      `getUid` hands out keep the queued BEGIN ids pairwise distinct and below the
      counter, and the ledger invariant holds after every event. */
  lemma {:induction false} ScheduleKeepsSound(c: Coordinators, events: seq<Event>)
    requires Sound(c)
    ensures Sound(Schedule(c, events))
    decreases |events|
  {
    if |events| > 0 {
      PerformKeepsSound(c, events[0]);
      ScheduleKeepsSound(Perform(c, events[0]), events[1..]);
    }
  }

  /** Run without interleaving on a valid store whose open ids the generator has
      passed, `ADD_ITEM_OPTMISTIC` shows the pending item while it waits and then
      leaves the list with exactly the settled item appended (pending cleared,
      `error` set iff the call failed); the ledger stays valid, and a window that
      was closed before is closed again. */
  lemma AddItemOptimisticAppendsSettled(st: ItemsStore, gen: Uid.Generator, data: string, success: bool)
    requires Valid(AddItemMutation, st)
    requires IdsBelow(st.ledger.queue, gen)
    ensures var r := AddItemOptimistic(st, gen, data, success);
      && LaunchAddItem(st, gen, data).value.0.state == st.state + [PendingItem(data)]
      && r.Ok?
      && r.value.0.state == st.state + [SettledItem(data, success)]
      && Valid(AddItemMutation, r.value.0)
      && (st.ledger == EmptyLedger() ==> r.value.0.ledger == EmptyLedger())
  {
    var b := BeginAction(data, gen.next);
    var c := SettleAction(data, gen.next, success);
    var q := st.ledger.queue;
    assert !IsOpen(q, gen.next);
    BackToBackTransaction(AddItemMutation, st, b, c);
    StepPreservesValid(AddItemMutation, st, b);
    StepPreservesValid(AddItemMutation, Step(AddItemMutation, st, b), c);
  }

  /** Two coordinators in flight, settling out of order: items 0 and 1 begin, item
      1's call settles first. The list then shows item 0 pending and item 1 settled,
      with the snapshot retained; when item 0 settles the list shows both settled in
      their original order and the window closes. */
  lemma OutOfOrderSettle(init: seq<Item>, a: string, b: string, okA: bool, okB: bool)
    ensures var st0: ItemsStore := Store(init, EmptyLedger());
      var st1 := AddItem(st0, BeginAction(a, 0));
      var st2 := AddItem(st1, BeginAction(b, 1));
      var st3 := SettleAddItem(st2, InFlight(1, b), okB);
      && st3.Ok?
      && st3.value.state == init + [PendingItem(a), SettledItem(b, okB)]
      && st3.value.ledger.snapshot == Some(init)
      && SettleAddItem(st3.value, InFlight(0, a), okA) ==
           Ok(Store(init + [SettledItem(a, okA), SettledItem(b, okB)], EmptyLedger()))
  {
    var st0: ItemsStore := Store(init, EmptyLedger());
    var beginA := BeginAction(a, 0);
    var beginB := BeginAction(b, 1);
    var closeA := SettleAction(a, 0, okA);
    var closeB := SettleAction(b, 1, okB);
    OutOfOrderClose(AddItemMutation, init, beginA, beginB, closeA, closeB);
    var st1 := AddItem(st0, beginA);
    var st2 := AddItem(st1, beginB);
    assert [beginA, beginB, closeB][1..] == [beginB, closeB];
    assert [beginB, closeB][1..] == [closeB];
    assert [closeB][1..] == [];
    var st3 := AddItem(st2, closeB);
    assert Run(AddItemMutation, st2, [closeB]) == Run(AddItemMutation, st3, []);
    assert Run(AddItemMutation, st1, [beginB, closeB]) == Run(AddItemMutation, st2, [closeB]);
    assert Run(AddItemMutation, st0, [beginA, beginB, closeB]) == Run(AddItemMutation, st1, [beginB, closeB]);
    assert st3 == Store(init + [PendingItem(a)] + [SettledItem(b, okB)], Ledger(Some(init), [beginA, closeB]));
    assert init + [PendingItem(a)] + [SettledItem(b, okB)] == init + [PendingItem(a), SettledItem(b, okB)];
    assert AddItem(st3, closeA) == Store(init + [SettledItem(a, okA)] + [SettledItem(b, okB)], EmptyLedger());
    assert init + [SettledItem(a, okA)] + [SettledItem(b, okB)] == init + [SettledItem(a, okA), SettledItem(b, okB)];
  }
}
