/** The process-wide transaction identifier generator (`getUid`, src/store.js:8-11):
    a closure over a counter that returns the counter and then increments it. */
module Uid {

  /** The closure's captured `id`: the next identifier to hand out. */
  datatype Generator = Generator(next: nat)

  /** The generator as the module creates it, before any call. */
  const Initial: Generator := Generator(0)

  /** One call of `getUid()`: `id++` yields the current counter and leaves the
      counter one higher, so the next call returns a strictly larger id. */
  function Take(g: Generator): (r: (nat, Generator))
    ensures r.0 == g.next
    ensures r.1.next == g.next + 1
  {
    (g.next, Generator(g.next + 1))
  }

  /** `n` successive calls of `getUid()`. The identifiers are consecutive from the
      generator's counter onwards (so 0, 1, 2, ... from `Initial`), hence strictly
      increasing and pairwise distinct, and the returned generator will only issue
      larger ones. */
  method IssueIds(g: Generator, n: nat) returns (ids: seq<nat>, g': Generator)
    ensures |ids| == n
    ensures forall i :: 0 <= i < n ==> ids[i] == g.next + i
    ensures forall i, j :: 0 <= i < j < n ==> ids[i] < ids[j]
    ensures forall i :: 0 <= i < n ==> ids[i] < g'.next
    ensures g'.next == g.next + n
  {
    ids := [];
    g' := g;
    while |ids| < n
      invariant |ids| <= n
      invariant g'.next == g.next + |ids|
      invariant forall i :: 0 <= i < |ids| ==> ids[i] == g.next + i
    {
      var r := Take(g');
      ids := ids + [r.0];
      g' := r.1;
    }
  }
}
