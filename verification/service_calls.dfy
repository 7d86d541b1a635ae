/**
 * The bookkeeping state the Steam service's inline methods change (its
 * listener list and its awaiting-callback counter) as a value, with the
 * effect of each of those calls and of a whole sequence of them.
 */
module ServiceCalls {
  import opened Listeners

  /** One call on the service that changes its bookkeeping: AddListener,
      RemoveListener or SetAwaitingCallback. */
  datatype Call<L> =
    | Add(listener: L)
    | Remove(listener: L)
    | Adjust(delta: int)

  datatype Bookkeeping<L> = Bookkeeping(listeners: seq<L>, awaitingCallbacks: int)

  /** The effect of one call: push_back, find-and-erase, or an unclamped add. */
  function Apply<L(==)>(b: Bookkeeping<L>, c: Call<L>): (r: Bookkeeping<L>)
    ensures r.awaitingCallbacks == b.awaitingCallbacks + (if c.Adjust? then c.delta else 0)
    ensures c.Adjust? ==> r.listeners == b.listeners
    ensures c.Add? ==> |r.listeners| == |b.listeners| + 1 && r.listeners[|b.listeners|] == c.listener
    ensures c.Add? ==> r.listeners[..|b.listeners|] == b.listeners
    ensures c.Remove? ==> multiset(r.listeners) == multiset(b.listeners) - multiset{c.listener}
    ensures c.Remove? ==> |r.listeners| == |b.listeners| - (if c.listener in b.listeners then 1 else 0)
  {
    match c
    case Add(l) => b.(listeners := b.listeners + [l])
    case Remove(l) => b.(listeners := FindAndErase(b.listeners, l))
    case Adjust(d) => b.(awaitingCallbacks := b.awaitingCallbacks + d)
  }

  /** The sum of the deltas passed to SetAwaitingCallback among `cs`. */
  function DeltaSum<L>(cs: seq<Call<L>>): int
  {
    if cs == [] then 0
    else (if cs[0].Adjust? then cs[0].delta else 0) + DeltaSum(cs[1..])
  }

  /** The effect of the calls `cs`, made in order. Whatever the calls, the
      counter ends at its starting value plus the sum of every delta passed
      to SetAwaitingCallback: nothing clamps it. */
  function Replay<L(==)>(b: Bookkeeping<L>, cs: seq<Call<L>>): (r: Bookkeeping<L>)
    ensures r.awaitingCallbacks == b.awaitingCallbacks + DeltaSum(cs)
    decreases |cs|
  {
    if cs == [] then b else Replay(Apply(b, cs[0]), cs[1..])
  }

  /** `n` identical calls. */
  function Repeat<L>(c: Call<L>, n: nat): (cs: seq<Call<L>>)
  {
    seq(n, _ => c)
  }

  /** A run made only of SetAwaitingCallback calls leaves the listener list alone. */
  lemma {:induction false} ReplayCounterCallsKeepListeners<L>(b: Bookkeeping<L>, cs: seq<Call<L>>)
    requires forall i :: 0 <= i < |cs| ==> cs[i].Adjust?
    ensures Replay(b, cs).listeners == b.listeners
    decreases |cs|
  {
    if cs != [] {
      ReplayCounterCallsKeepListeners(Apply(b, cs[0]), cs[1..]);
    }
  }

  /** AddListener does not deduplicate: `n` calls with the same listener
      append it `n` times, and the list grows by exactly one per call. */
  lemma {:induction false} RepeatedAdds<L>(b: Bookkeeping<L>, l: L, n: nat)
    ensures Replay(b, Repeat(Add(l), n)).listeners == b.listeners + seq(n, _ => l)
    ensures |Replay(b, Repeat(Add(l), n)).listeners| == |b.listeners| + n
    ensures multiset(Replay(b, Repeat(Add(l), n)).listeners)[l] == multiset(b.listeners)[l] + n
    decreases n
  {
    if n > 0 {
      var b1 := Apply(b, Add(l));
      assert Repeat(Add(l), n)[1..] == Repeat(Add(l), n - 1);
      RepeatedAdds(b1, l, n - 1);
      assert b1.listeners + seq(n - 1, _ => l) == b.listeners + seq(n, _ => l);
    }
  }

  /** AddListener(l) then RemoveListener(l) restores the previous bookkeeping
      when `l` was not registered; when it was, its first entry is the one
      removed and the new one stays at the end. */
  lemma AddThenRemove<L>(b: Bookkeeping<L>, l: L)
    ensures Replay(b, [Add(l), Remove(l)]) ==
              if l in b.listeners then b.(listeners := FindAndErase(b.listeners, l) + [l]) else b
  {
    FindAndEraseAfterAppend(b.listeners, l);
    var cs := [Add(l), Remove(l)];
    var b1 := Apply(b, Add(l));
    assert cs[1..] == [Remove(l)];
    assert Replay(b, cs) == Replay(b1, [Remove(l)]);
    assert Replay(b1, [Remove(l)]) == Replay(Apply(b1, Remove(l)), []);
  }

  /** AddListener(l) then RemoveListener(l) leaves the bookkeeping unchanged
      exactly when every entry from `l`'s first occurrence on is `l`. */
  lemma AddThenRemoveRestoresIff<L>(b: Bookkeeping<L>, l: L)
    ensures Replay(b, [Add(l), Remove(l)]) == b <==>
              forall k :: FindIndex(b.listeners, l) <= k < |b.listeners| ==> b.listeners[k] == l
  {
    AddThenRemove(b, l);
    FindAndEraseAfterAppend(b.listeners, l);
    AppendEraseRestoresIff(b.listeners, l);
  }
}
