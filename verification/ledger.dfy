/** The optimistic-transaction ledger of src/store.js. The same algorithm is
    written twice there: generically in `createOptimisticModule`
    (`[UPDATE_ACTION_OPTIMIST_KEY]`, src/store.js:81-135) and concretely in the
    `items` module's `ADD_ITEM` action (src/store.js:158-212). This module states it
    once, over an arbitrary state type `S`, payload type `P` and deterministic
    mutation `apply`; the module-level (or closure) `snapshot` and `actionQueue`
    become the `Ledger` record threaded through every dispatch. */
module Optimistic {
  import opened Basics

  /** The `optimist.type` of an action. */
  datatype Phase = Begin | Commit | Revert

  /** An action's `optimist` field: its phase and transaction id. */
  datatype Optimist = Optimist(phase: Phase, id: int)

  /** A dispatched action: the payload its mutation consumes, and its optimistic metadata. */
  datatype Action<P> = Action(payload: P, optimist: Optimist)

  /** `snapshot` (null or a deep copy of the state) and `actionQueue`. */
  datatype Ledger<S, P> = Ledger(snapshot: Option<S>, queue: seq<Action<P>>)

  /** The store's state together with the ledger that reconciles it. */
  datatype Store<S, P> = Store(state: S, ledger: Ledger<S, P>)

  /** The ledger before the first dispatch: `null` and `[]`. */
  function EmptyLedger<S, P>(): Ledger<S, P>
  {
    Ledger(None, [])
  }

  /** The phases that take the `COMMIT || REVERT` branch. */
  predicate IsClose<P>(a: Action<P>)
  {
    a.optimist.phase != Begin
  }

  /** A queued entry that the close of transaction `id` replaces: a BEGIN with that id. */
  predicate ClosedBy<P>(e: Action<P>, id: int)
  {
    e.optimist.phase == Begin && e.optimist.id == id
  }

  /** A queued BEGIN of some other transaction, which keeps the window open. */
  predicate OpenOther<P>(e: Action<P>, id: int)
  {
    e.optimist.phase == Begin && e.optimist.id != id
  }

  /** Whether the walk over `q` for a close of `id` sets `findOptAction`. */
  predicate HasOtherOpen<P>(q: seq<Action<P>>, id: int)
  {
    exists i :: 0 <= i < |q| && OpenOther(q[i], id)
  }

  /** Applies every action of `q`, in order, to `s`. */
  function Replay<S, P>(apply: (S, Action<P>) -> S, s: S, q: seq<Action<P>>): S
    decreases |q|
  {
    if |q| == 0 then s else Replay(apply, apply(s, q[0]), q[1..])
  }

  /** The queue the close of `a` rebuilds: each BEGIN entry of the closing
      transaction is replaced by `a`, every other entry is carried forward, and
      the order and length are those of `q`. */
  function Substitute<P>(q: seq<Action<P>>, a: Action<P>): (r: seq<Action<P>>)
    ensures |r| == |q|
    ensures forall i :: 0 <= i < |q| && ClosedBy(q[i], a.optimist.id) ==> r[i] == a
    ensures forall i :: 0 <= i < |q| && !ClosedBy(q[i], a.optimist.id) ==> r[i] == q[i]
    decreases |q|
  {
    if |q| == 0 then []
    else [if ClosedBy(q[0], a.optimist.id) then a else q[0]] + Substitute(q[1..], a)
  }

  /** The state a close rolls back to: the snapshot when one exists, else the
      current state (`if (snapshot)` guards the restore). */
  function RollbackBase<S, P>(st: Store<S, P>): S
  {
    match st.ledger.snapshot
    case Some(s) => s
    case None => st.state
  }

  /** BEGIN: capture the state if no snapshot exists, enqueue the action, apply it. */
  function StepBegin<S, P>(apply: (S, Action<P>) -> S, st: Store<S, P>, a: Action<P>): Store<S, P>
  {
    var snapshot := if st.ledger.snapshot.None? then Some(st.state) else st.ledger.snapshot;
    Store(apply(st.state, a), Ledger(snapshot, st.ledger.queue + [a]))
  }

  /** COMMIT or REVERT: roll back, replay the rebuilt queue, then either close the
      window or keep the rebuilt queue and the snapshot. */
  function StepClose<S, P>(apply: (S, Action<P>) -> S, st: Store<S, P>, a: Action<P>): Store<S, P>
  {
    var rebuilt := Substitute(st.ledger.queue, a);
    var state := Replay(apply, RollbackBase(st), rebuilt);
    if HasOtherOpen(st.ledger.queue, a.optimist.id) then Store(state, Ledger(st.ledger.snapshot, rebuilt))
    else Store(state, EmptyLedger())
  }

  /** One dispatch of an optimistic action. */
  function Step<S, P>(apply: (S, Action<P>) -> S, st: Store<S, P>, a: Action<P>): Store<S, P>
  {
    if IsClose(a) then StepClose(apply, st, a) else StepBegin(apply, st, a)
  }

  /** A sequence of dispatches, one after another. */
  function Run<S, P>(apply: (S, Action<P>) -> S, st: Store<S, P>, actions: seq<Action<P>>): Store<S, P>
    decreases |actions|
  {
    if |actions| == 0 then st else Run(apply, Step(apply, st, actions[0]), actions[1..])
  }

  /** The close branch as the source writes it: roll back, then a `forEach` over
      the queue that applies and pushes each entry (or the incoming action in place
      of the closing BEGIN) and records whether another BEGIN is still open. It
      computes exactly the functional close: the rebuilt queue is the pointwise
      substitution, the state is the rollback base with that queue replayed, and
      the window closes exactly when no other BEGIN was met. */
  method CloseWalk<S, P>(apply: (S, Action<P>) -> S, st: Store<S, P>, a: Action<P>) returns (r: Store<S, P>)
    ensures r == StepClose(apply, st, a)
    ensures r.ledger.snapshot.None? || r.ledger.snapshot == st.ledger.snapshot
  {
    var id := a.optimist.id;
    var q := st.ledger.queue;
    var state := RollbackBase(st);
    var newQueue: seq<Action<P>> := [];
    var found := false;
    var i := 0;
    while i < |q|
      invariant 0 <= i <= |q|
      invariant |newQueue| == i
      invariant forall k :: 0 <= k < i && ClosedBy(q[k], id) ==> newQueue[k] == a
      invariant forall k :: 0 <= k < i && !ClosedBy(q[k], id) ==> newQueue[k] == q[k]
      invariant state == Replay(apply, RollbackBase(st), newQueue)
      invariant found <==> exists k :: 0 <= k < i && OpenOther(q[k], id)
    {
      var pAction := q[i];
      ReplayAppend(apply, RollbackBase(st), newQueue, if ClosedBy(pAction, id) then a else pAction);
      if pAction.optimist.phase == Begin {
        if id == pAction.optimist.id {
          state := apply(state, a);
          newQueue := newQueue + [a];
        } else {
          found := true;
          state := apply(state, pAction);
          newQueue := newQueue + [pAction];
        }
      } else {
        state := apply(state, pAction);
        newQueue := newQueue + [pAction];
      }
      i := i + 1;
    }
    assert newQueue == Substitute(q, a);
    if !found {
      r := Store(state, EmptyLedger());
    } else {
      r := Store(state, Ledger(st.ledger.snapshot, newQueue));
    }
  }

  /** Replaying one more action is applying it to the replay of the rest. */
  lemma {:induction false} ReplayAppend<S, P>(apply: (S, Action<P>) -> S, s: S, q: seq<Action<P>>, a: Action<P>)
    ensures Replay(apply, s, q + [a]) == apply(Replay(apply, s, q), a)
    decreases |q|
  {
    if |q| == 0 {
      assert q + [a] == [a];
    } else {
      assert (q + [a])[1..] == q[1..] + [a];
      ReplayAppend(apply, apply(s, q[0]), q[1..], a);
    }
  }

  /** Replaying two actions applies them in order. */
  lemma ReplayPair<S, P>(apply: (S, Action<P>) -> S, s: S, x: Action<P>, y: Action<P>)
    ensures Replay(apply, s, [x, y]) == apply(apply(s, x), y)
  {
    assert [x, y][1..] == [y];
    assert [y][1..] == [];
    assert Replay(apply, apply(s, x), [y]) == Replay(apply, apply(apply(s, x), y), []);
  }

  /** Snapshot/queue coupling: the snapshot is present exactly when the queue is non-empty. */
  predicate Coupled<S, P>(l: Ledger<S, P>)
  {
    l.snapshot.Some? <==> |l.queue| > 0
  }

  /** Replay equivalence: while a window is open the visible state is the
      snapshot with the queue replayed over it. */
  ghost predicate Consistent<S, P>(apply: (S, Action<P>) -> S, st: Store<S, P>)
  {
    st.ledger.snapshot.Some? ==> st.state == Replay(apply, st.ledger.snapshot.value, st.ledger.queue)
  }

  /** The ledger invariant: coupling and replay equivalence together. */
  ghost predicate Valid<S, P>(apply: (S, Action<P>) -> S, st: Store<S, P>)
  {
    Coupled(st.ledger) && Consistent(apply, st)
  }

  /** A BEGIN opens (or extends) the window: afterwards the snapshot and the
      queue are both non-empty; an existing snapshot is left untouched and a
      missing one becomes the pre-dispatch state; the action is appended at the
      end of the queue and its mutation applied once to the visible state. */
  lemma BeginOpensWindow<S, P>(apply: (S, Action<P>) -> S, st: Store<S, P>, a: Action<P>)
    requires !IsClose(a)
    ensures var r := Step(apply, st, a);
      && r.ledger.snapshot.Some? && |r.ledger.queue| > 0
      && (st.ledger.snapshot.Some? ==> r.ledger.snapshot == st.ledger.snapshot)
      && (st.ledger.snapshot.None? ==> r.ledger.snapshot == Some(st.state))
      && |r.ledger.queue| == |st.ledger.queue| + 1
      && r.ledger.queue[..|st.ledger.queue|] == st.ledger.queue
      && r.ledger.queue[|st.ledger.queue|] == a
      && r.state == apply(st.state, a)
  {
  }

  /** Every dispatch keeps snapshot/queue coupling and replay equivalence. */
  lemma StepPreservesValid<S, P>(apply: (S, Action<P>) -> S, st: Store<S, P>, a: Action<P>)
    requires Valid(apply, st)
    ensures Valid(apply, Step(apply, st, a))
  {
    if !IsClose(a) {
      match st.ledger.snapshot
      case None =>
        assert st.ledger.queue + [a] == [a];
        assert Replay(apply, st.state, [a]) == apply(st.state, a);
      case Some(s) =>
        ReplayAppend(apply, s, st.ledger.queue, a);
    }
  }

  /** For every sequence of dispatches from a valid store (in particular from the
      empty ledger), snapshot/queue coupling and replay equivalence hold after
      every dispatch. */
  lemma {:induction false} RunPreservesValid<S, P>(apply: (S, Action<P>) -> S, st: Store<S, P>, actions: seq<Action<P>>)
    requires Valid(apply, st)
    ensures forall k :: 0 <= k <= |actions| ==> Valid(apply, Run(apply, st, actions[..k]))
    decreases |actions|
  {
    forall k | 0 <= k <= |actions|
      ensures Valid(apply, Run(apply, st, actions[..k]))
    {
      if k > 0 {
        StepPreservesValid(apply, st, actions[0]);
        RunPreservesValid(apply, Step(apply, st, actions[0]), actions[1..]);
        assert actions[..k][1..] == actions[1..][..k - 1];
      }
    }
  }

  /** The window closes (snapshot null, queue empty) exactly when the queue holds
      no BEGIN of a transaction other than the closing one; otherwise the snapshot
      is retained and the rebuilt queue is non-empty. */
  lemma CloseClearsIffNoOtherOpen<S, P>(apply: (S, Action<P>) -> S, st: Store<S, P>, a: Action<P>)
    requires IsClose(a)
    ensures var r := Step(apply, st, a);
      && (r.ledger == EmptyLedger() <==> !HasOtherOpen(st.ledger.queue, a.optimist.id))
      && (HasOtherOpen(st.ledger.queue, a.optimist.id) ==> r.ledger.snapshot == st.ledger.snapshot && |r.ledger.queue| > 0)
  {
  }

  /** A COMMIT or REVERT arriving while no window is open changes nothing: the
      incoming action is dropped rather than applied, so a quiescent store stays
      as it is. */
  lemma StrayCloseIsDropped<S, P>(apply: (S, Action<P>) -> S, st: Store<S, P>, a: Action<P>)
    requires Coupled(st.ledger) && IsClose(a) && st.ledger.snapshot.None?
    ensures Step(apply, st, a) == st
  {
  }

  /** A COMMIT or REVERT whose id has no open BEGIN in the queue (already closed or
      never opened) is silently dropped: the visible state is unchanged, the
      incoming action appears nowhere, and while other transactions are open the
      ledger is unchanged too. */
  lemma UnknownCloseIsDropped<S, P>(apply: (S, Action<P>) -> S, st: Store<S, P>, a: Action<P>)
    requires Valid(apply, st) && IsClose(a) && !IsOpen(st.ledger.queue, a.optimist.id)
    ensures var r := Step(apply, st, a);
      && r.state == st.state
      && (HasOtherOpen(st.ledger.queue, a.optimist.id) ==> r.ledger == st.ledger)
      && (!HasOtherOpen(st.ledger.queue, a.optimist.id) ==> r.ledger == EmptyLedger())
  {
    var q := st.ledger.queue;
    forall i | 0 <= i < |q|
      ensures Substitute(q, a)[i] == q[i]
    {
      assert !ClosedBy(q[i], a.optimist.id);
    }
    assert Substitute(q, a) == q;
    if st.ledger.snapshot.None? {
      assert q == [];
    }
  }

  /** Whether `q` holds an unsettled BEGIN of transaction `id`. */
  predicate IsOpen<P>(q: seq<Action<P>>, id: int)
  {
    exists i :: 0 <= i < |q| && ClosedBy(q[i], id)
  }

  /** Open ids unique: no two queued BEGINs share a transaction id. */
  predicate OpenIdsUnique<P>(q: seq<Action<P>>)
  {
    forall i, j :: 0 <= i < j < |q| && q[i].optimist.phase == Begin && q[j].optimist.phase == Begin ==>
      q[i].optimist.id != q[j].optimist.id
  }

  /** Dispatches keep the open BEGINs' ids unique, provided a BEGIN never reuses the
      id of a transaction that is still open. */
  lemma StepKeepsOpenIdsUnique<S, P>(apply: (S, Action<P>) -> S, st: Store<S, P>, a: Action<P>)
    requires OpenIdsUnique(st.ledger.queue)
    requires !IsClose(a) ==> !IsOpen(st.ledger.queue, a.optimist.id)
    ensures OpenIdsUnique(Step(apply, st, a).ledger.queue)
  {
  }

  /** Order preservation and out-of-order close, for any two transactions A and
      B with different ids: open A then B, close B first. The window stays open
      with A still pending, the queue keeps A's BEGIN ahead of B's close, and the
      state is A's speculative effect followed by B's final one. Closing A
      afterwards closes the window with both final effects applied in opening
      order. */
  lemma OutOfOrderClose<S, P>(apply: (S, Action<P>) -> S, s: S,
                               beginA: Action<P>, beginB: Action<P>, closeA: Action<P>, closeB: Action<P>)
    requires !IsClose(beginA) && !IsClose(beginB) && IsClose(closeA) && IsClose(closeB)
    requires beginA.optimist.id != beginB.optimist.id
    requires closeA.optimist.id == beginA.optimist.id && closeB.optimist.id == beginB.optimist.id
    ensures var st3 := Run(apply, Store(s, EmptyLedger()), [beginA, beginB, closeB]);
      && st3 == Store(apply(apply(s, beginA), closeB), Ledger(Some(s), [beginA, closeB]))
      && Step(apply, st3, closeA) == Store(apply(apply(s, closeA), closeB), EmptyLedger())
  {
    var st0: Store<S, P> := Store(s, EmptyLedger());
    var st1 := Step(apply, st0, beginA);
    assert st1 == Store(apply(s, beginA), Ledger(Some(s), [beginA]));
    var st2 := Step(apply, st1, beginB);
    assert [beginA] + [beginB] == [beginA, beginB];
    assert st2 == Store(apply(apply(s, beginA), beginB), Ledger(Some(s), [beginA, beginB]));
    var q2 := [beginA, beginB];
    var rebuilt := Substitute(q2, closeB);
    assert rebuilt == [beginA, closeB];
    assert OpenOther(q2[0], closeB.optimist.id);
    var st3 := Step(apply, st2, closeB);
    ReplayPair(apply, s, beginA, closeB);
    assert st3 == Store(apply(apply(s, beginA), closeB), Ledger(Some(s), [beginA, closeB]));
    assert [beginA, beginB, closeB][1..] == [beginB, closeB];
    assert [beginB, closeB][1..] == [closeB];
    assert [closeB][1..] == [];
    assert Run(apply, st2, [closeB]) == Run(apply, st3, []);
    assert Run(apply, st1, [beginB, closeB]) == Run(apply, st2, [closeB]);
    assert Run(apply, st0, [beginA, beginB, closeB]) == Run(apply, st1, [beginB, closeB]);
    var rebuilt' := Substitute([beginA, closeB], closeA);
    assert rebuilt' == [closeA, closeB];
    assert !HasOtherOpen([beginA, closeB], closeA.optimist.id);
    ReplayPair(apply, s, closeA, closeB);
  }

  /** A transaction that opens and closes with no dispatch in between, on a valid
      store and with an id no open BEGIN carries, has the effect of its closing
      action applied directly to the visible state; the window stays open (with
      the closing action appended to the queue) exactly when another transaction
      was already open, and closes otherwise. */
  lemma BackToBackTransaction<S, P>(apply: (S, Action<P>) -> S, st: Store<S, P>, b: Action<P>, c: Action<P>)
    requires Valid(apply, st)
    requires !IsClose(b) && IsClose(c) && b.optimist.id == c.optimist.id
    requires !IsOpen(st.ledger.queue, b.optimist.id)
    ensures var r := Step(apply, Step(apply, st, b), c); var q := st.ledger.queue;
      && r.state == apply(st.state, c)
      && (HasOtherOpen(q, c.optimist.id) ==> r.ledger == Ledger(st.ledger.snapshot, q + [c]))
      && (!HasOtherOpen(q, c.optimist.id) ==> r.ledger == EmptyLedger())
  {
    var q := st.ledger.queue;
    var id := c.optimist.id;
    var st1 := Step(apply, st, b);
    assert st1.ledger.queue == q + [b];
    var rebuilt := Substitute(q + [b], c);
    forall i | 0 <= i < |q| + 1
      ensures rebuilt[i] == (q + [c])[i]
    {
      if i < |q| {
        assert !ClosedBy(q[i], id);
      }
    }
    assert rebuilt == q + [c];
    var base := st1.ledger.snapshot.value;
    ReplayAppend(apply, base, q, c);
    if st.ledger.snapshot.None? {
      assert q == [];
    }
    assert Replay(apply, base, q) == st.state;
    if HasOtherOpen(q + [b], id) {
      var i :| 0 <= i < |q + [b]| && OpenOther((q + [b])[i], id);
      assert i < |q| && OpenOther(q[i], id);
    }
    if HasOtherOpen(q, id) {
      var i :| 0 <= i < |q| && OpenOther(q[i], id);
      assert OpenOther((q + [b])[i], id);
    }
  }
}
