# Optimistic-transaction ledger of vue-optimistic-ui, in Dafny

This project models the reconciliation engine of `src/store.js`. The engine lets
a Vuex store apply speculative ("optimistic") mutations right away, before an
asynchronous call settles. Its state is a `snapshot`, which is either null or a
deep copy of the store state, and an `actionQueue`. Three kinds of dispatch act
on it:

- **BEGIN** captures the snapshot if none exists. It then appends the action to
  the queue and applies its mutation.
- **COMMIT** and **REVERT** roll back to the snapshot and replay the queue in
  order. During the replay, each BEGIN of the closing transaction is replaced by
  the incoming action. If no BEGIN of another transaction remains, the window
  closes: the snapshot becomes null and the queue becomes empty. Otherwise the
  rebuilt queue is kept.

The algorithm appears twice in the source. It is generic in `createOptimisticModule`
and concrete in the `items` module's `ADD_ITEM` action. Both are modelled once,
in module `Optimistic` (`ledger.dfy`). That module is generic over the state `S`,
the payload `P` and a deterministic mutation `apply`. A `Store` holds the state
and a `Ledger` (snapshot and queue), and each dispatch is a pure function
`Step`. Module `Items` (`items.dfy`) instantiates it with a list of items and
the `ADD_ITEM` push mutation. It also models the as-written `ADD_ITEM` action,
including its `tpye` typo, and the `ADD_ITEM_OPTMISTIC` coordinator. Module `Uid`
(`uid.dfy`) models `getUid`. Module `Basics` (`basics.dfy`) holds `Option` and
`Result`.

Three behaviours of the code are worth stating plainly:

- A close does not drop the closed transaction from the queue. The incoming
  COMMIT/REVERT action takes its BEGIN's place, later replays re-apply it, and
  the queue only empties when the window closes.
- No dispatch is rejected for misuse. A COMMIT/REVERT with no open window, or for
  an id that is not open, is silently dropped (`StrayCloseIsDropped`,
  `UnknownCloseIsDropped`). A BEGIN reusing an open id is not checked.
  `StepKeepsOpenIdsUnique` therefore assumes fresh ids, and `ScheduleKeepsSound`
  shows that ids drawn from `getUid` always are.
- `ADD_ITEM_OPTMISTIC` closes with COMMIT whether its call succeeds or fails. On
  failure the payload marks the item as errored.

## Model

| member | source | states |
|---|---|---|
| Uid.Take | src/store.js:8-11 | `getUid()` returns the current counter and leaves the counter one higher |
| Uid.IssueIds | src/store.js:8-11 | successive `getUid()` calls yield consecutive ids from the counter (0, 1, 2, … from a fresh generator), strictly increasing and distinct, all below the advanced counter |
| Optimistic.Substitute | src/store.js:180-200 | the rebuilt queue has the old queue's length and order; each BEGIN of the closing id is replaced by the incoming action and every other entry is carried forward unchanged |
| Optimistic.Step | src/store.js:81-135 | the generic optimistic action (its concrete copy is the `ADD_ITEM` action at src/store.js:158-212): BEGIN goes to `StepBegin`, COMMIT and REVERT go to `StepClose`; it has no contract of its own, and `StepPreservesValid`, `RunPreservesValid` and `OutOfOrderClose` state its properties |
| Optimistic.StepBegin | src/store.js:165-171 | the BEGIN dispatch, also the generic copy at src/store.js:88-94; it has no contract of its own, and `BeginOpensWindow` and `StepPreservesValid` state its properties |
| Optimistic.StepClose | src/store.js:174-211 | the COMMIT/REVERT dispatch, also the generic copy at src/store.js:97-134; it has no contract of its own, and `CloseWalk`, `CloseClearsIffNoOtherOpen`, `StepPreservesValid` and `Items.CloseSettlesInPlace` state its properties |
| Optimistic.RollbackBase | src/store.js:176-178 | the `if (snapshot)` restore through `REVERT_ITEMS` (src/store.js:153-155); it has no contract of its own, and `StrayCloseIsDropped` states what happens without a snapshot |
| Optimistic.CloseWalk | src/store.js:174-211 | the source's rollback and `forEach` walk, with its three branches and `findOptAction` flag, computes exactly the functional close step; the snapshot is either cleared or kept as it was |
| Optimistic.BeginOpensWindow | src/store.js:165-171 | after BEGIN both snapshot and queue are non-empty; an existing snapshot is untouched and a missing one becomes the pre-dispatch state; the action is appended last and its mutation applied once |
| Optimistic.StepPreservesValid | src/store.js:158-212 | every dispatch preserves snapshot/queue coupling (snapshot present iff queue non-empty) and replay equivalence (while open, state = snapshot with the queue replayed in order) |
| Optimistic.RunPreservesValid | src/store.js:81-135 | from any valid store, including the initial null/[] ledger, coupling and replay equivalence hold after every prefix of any dispatch sequence |
| Optimistic.CloseClearsIffNoOtherOpen | src/store.js:184-209 | the window closes (null, []) exactly when no BEGIN of a different id is queued; otherwise the snapshot is retained and the queue is non-empty |
| Optimistic.StrayCloseIsDropped | src/store.js:176-206 | a COMMIT/REVERT with no snapshot leaves state, snapshot and queue unchanged, and the incoming action is not applied |
| Optimistic.UnknownCloseIsDropped | src/store.js:180-209 | a close for an id with no open BEGIN leaves the visible state unchanged and, while other transactions are open, the ledger too |
| Optimistic.StepKeepsOpenIdsUnique | src/store.js:165-209 | if a BEGIN never reuses an open id, the queued BEGINs keep pairwise distinct ids |
| Optimistic.OutOfOrderClose | src/store.js:97-133 | BEGIN A, BEGIN B, close B leaves state = A's BEGIN then B's close, snapshot retained, queue [BEGIN A, close B]; then closing A gives A's close then B's close and an empty ledger |
| Optimistic.BackToBackTransaction | src/store.js:165-209 | BEGIN then close of a fresh id with nothing in between has the close action's effect on the visible state; the window stays open with the close appended iff another transaction was open |
| Items.ReplayAppendsItems | src/store.js:150-152 | replaying a queue with the `ADD_ITEM` push appends the queued items in queue order |
| Items.AddItemMutation | src/store.js:150-152 | the `ADD_ITEM` push; it has no contract of its own, and `ReplayAppendsItems` states its effect over a queue |
| Items.AddItem | src/store.js:97-133 | the corrected `ADD_ITEM` action, the generic step over the push; it has no contract of its own, and `RevertClosesLikeCommit` and `CloseSettlesInPlace` state its properties |
| Items.CloseSettlesInPlace | src/store.js:176-200 | on a valid store with an open window, a close keeps the snapshot's items, puts the closing item in place of each pending item of the closing id, and leaves every other item unchanged |
| Items.AddItemAsWritten | src/store.js:158-212 | the `ADD_ITEM` action throws a ReferenceError exactly for REVERT (the `tpye` operand) and otherwise equals the generic ledger step |
| Items.RevertClosesLikeCommit | src/store.js:97-133 | with the typo corrected, a REVERT yields the same items and snapshot as a COMMIT with the same payload and id; the queues differ only in the recorded phase |
| Items.RevertIntoAddItemThrows | src/store.js:174 | with items 0 and 1 pending, REVERT 0 throws in the action as written; the corrected action shows item 0 errored and item 1 still pending, keeping the snapshot |
| Items.LaunchAddItem | src/store.js:240-257 | the BEGIN half of `ADD_ITEM_OPTMISTIC` never throws; it draws the generator's id, advances the generator and shows the item with `pending:true, error:false` at the end of the list |
| Items.SettleAddItem | src/store.js:259-289 | the closing half always dispatches a COMMIT under the same id, never throws, and equals the corrected ledger step |
| Items.AddItemOptimistic | src/store.js:240-289 | the whole coordinator run without interleaving never throws and consumes exactly one id |
| Items.LaunchKeepsIdsBelow | src/store.js:240-257 | the BEGIN half keeps every queued BEGIN id below the `getUid` counter |
| Items.SettleKeepsIdsBelow | src/store.js:259-289 | the closing half queues no BEGIN, so every queued BEGIN id stays below the counter |
| Items.PerformKeepsSound | src/store.js:240-289 | starting or settling one coordinator keeps the ledger invariant, the counter ahead of the queued BEGIN ids, and those ids pairwise distinct |
| Items.ScheduleKeepsSound | src/store.js:240-289 | under any interleaving of any number of coordinator starts and settlements, the ledger invariant holds and the queued BEGIN ids stay distinct |
| Items.InitialIsSound | src/store.js:24-25 | the store as created, with the initial null snapshot and empty queue, a fresh `getUid` counter (src/store.js:8-11) and nothing in flight, satisfies that invariant |
| Items.AddItemOptimisticAppendsSettled | src/store.js:240-289 | on a valid store with fresh ids, the list shows the pending item while waiting, then ends with exactly the settled item (`pending:false`, `error` iff the call failed) appended; validity holds and a closed window closes again |
| Items.OutOfOrderSettle | src/store.js:165-209 | BEGIN 0, BEGIN 1, COMMIT 1 gives [pending item0, final item1] with the snapshot retained; a following COMMIT 0 gives [final item0, final item1] with a null snapshot and an empty queue |

## Left out

- `src/api.js` is an I/O stub built from a timer, a random number and logging. It is not part of this model.
- Vue/Vuex wiring is not modelled: `Vue.use`, the store construction, getters, the `strict` flag, the root `name`/`live` state and the `UPDATE_FORM` mutation. It has no reconciliation logic.
- `delay` and the `await`/`try`/`catch` of `ADD_ITEM_OPTMISTIC` are replaced by a boolean `success`. Other dispatches during the `await` are modelled by splitting the coordinator into `LaunchAddItem` and `SettleAddItem`.
- `TEST_ADD` is not modelled. It reads an undefined `options`, and it dispatches actions without an `optimist` field.
- Actions without an `optimist` field are not modelled. Destructuring such an action throws a TypeError. Only `TEST_ADD` produces them.
- `optimist.type` strings other than BEGIN/COMMIT/REVERT are not modelled. The generic module ignores them; the items action would throw the same ReferenceError.
- `updateFormAction` is not modelled. It only calls caller-supplied callbacks. The id it draws and discards only advances the counter, and the explicit `Uid.Generator` allows for that.
- `cloneDeep` and `Object.assign` become value copy and replacement of an immutable state value. For the items state, whose only field is `items`, this is exact.
- The generic module uses the `Object.assign` merge (`REVERT_MUTATION_KEY`) both as its mutation and as its restore. The model abstracts the mutation as an arbitrary deterministic `apply`. It treats the restore as replacement, so keys a merge would leave behind are not modelled.
- Module-level globals and closure variables become the explicit `Ledger` record threaded through `Step`.
- Uid.Take: ids are unbounded naturals. JavaScript's `id++` on a Number loses integer precision above 2^53, and that is not modelled.
- Exceptions thrown by mutation functions are not modelled. The mutations here cannot throw.

## Findings

| source | as written | input that shows it | evidently intended | confidence | as-written member | corrected member |
|---|---|---|---|---|---|---|
| src/store.js:174 | `type === 'COMMIT' \|\| tpye === 'REVERT'` evaluates an undeclared identifier, so it throws a ReferenceError before any change | an `ADD_ITEM` action with `optimist: {type: 'REVERT', id: 0}` while transactions 0 and 1 are open (`Items.RevertIntoAddItemThrows`) | `type === 'REVERT'`, so REVERT closes like COMMIT, as in the generic module at src/store.js:97 (`Items.RevertClosesLikeCommit`) | high; not executed | Items.AddItemAsWritten | Items.AddItem |
