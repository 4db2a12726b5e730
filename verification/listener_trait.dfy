/** The interface every local-socket listener provides, reduced to the part
    with observable behaviour: the `Incoming` iterator that `incoming()`
    builds over a listener (src/local_socket/listener/trait.rs).

    A listener's `accept` may change the listener's hidden state (the named
    pipe listener swaps its stored instance), and its result depends on the
    operating system. Both are captured by an accept step function
    `(L, O) -> Accepted<S, L>` where `O` is the outcome the system chose. */
module ListenerTrait {
  import opened Results
  import opened IoErrors

  /** `usize::MAX` on a 64-bit target. */
  const USIZE_MAX: nat := 0xFFFF_FFFF_FFFF_FFFF

  /** The result of one accept, and the listener as it is afterwards. */
  datatype Accepted<S, L> = Accepted(result: IoResult<S>, after: L)

  /** An infinite iterator over the connections a listener accepts. */
  datatype Incoming<L> = Incoming(listener: L)

  /** One step of the iterator: the item it yields, and the iterator after it. */
  datatype Step<S, L> = Step(item: Option<IoResult<S>>, rest: Incoming<L>)

  /** `incoming()`: an iterator over this very listener. */
  function IncomingOf<L>(listener: L): (it: Incoming<L>)
    ensures it.listener == listener
  {
    Incoming(listener)
  }

  /** `next()`: always `Some` of exactly one accept on the listener. */
  function Next<L, O, S>(it: Incoming<L>, accept: (L, O) -> Accepted<S, L>, outcome: O): (r: Step<S, L>)
    ensures r.item.Some?
    ensures r.item.value == accept(it.listener, outcome).result
    ensures r.rest.listener == accept(it.listener, outcome).after
  {
    var a := accept(it.listener, outcome);
    Step(Some(a.result), Incoming(a.after))
  }

  /** `size_hint()`: at least `usize::MAX` items, with no upper bound. */
  function SizeHint<L>(it: Incoming<L>): (r: (nat, Option<nat>))
    ensures r.0 == USIZE_MAX && r.1 == None
  {
    (USIZE_MAX, None)
  }

  /** The items of as many calls to `next()` as there are outcomes, and the
      iterator after them. */
  function Take<L, O, S>(it: Incoming<L>, accept: (L, O) -> Accepted<S, L>, outcomes: seq<O>)
    : (r: (seq<Option<IoResult<S>>>, Incoming<L>))
    ensures |r.0| == |outcomes|
    ensures forall i :: 0 <= i < |r.0| ==> r.0[i].Some?
    decreases |outcomes|
  {
    if |outcomes| == 0 then ([], it)
    else
      var step := Next(it, accept, outcomes[0]);
      var rest := Take(step.rest, accept, outcomes[1..]);
      ([step.item] + rest.0, rest.1)
  }

  /** The listener after accepting once per outcome, in order. */
  function ListenerAfter<L, O, S>(listener: L, accept: (L, O) -> Accepted<S, L>, outcomes: seq<O>): L
    decreases |outcomes|
  {
    if |outcomes| == 0 then listener
    else ListenerAfter(accept(listener, outcomes[0]).after, accept, outcomes[1..])
  }

  /** Iterating is accepting: the i-th item is what the i-th accept returns
      on the listener left by the accepts before it, and the iterator ends
      up over the listener left by all of them. */
  lemma {:induction false} TakeIsRepeatedAccept<L, O, S>(it: Incoming<L>, accept: (L, O) -> Accepted<S, L>, outcomes: seq<O>)
    ensures Take(it, accept, outcomes).1.listener == ListenerAfter(it.listener, accept, outcomes)
    ensures forall i :: 0 <= i < |outcomes| ==>
              Take(it, accept, outcomes).0[i]
                == Some(accept(ListenerAfter(it.listener, accept, outcomes[..i]), outcomes[i]).result)
    decreases |outcomes|
  {
    if |outcomes| > 0 {
      var step := Next(it, accept, outcomes[0]);
      var tail := outcomes[1..];
      TakeIsRepeatedAccept(step.rest, accept, tail);
      forall i | 0 <= i < |outcomes|
        ensures Take(it, accept, outcomes).0[i]
                  == Some(accept(ListenerAfter(it.listener, accept, outcomes[..i]), outcomes[i]).result)
      {
        if i > 0 {
          assert outcomes[..i][1..] == tail[..i - 1];
          assert outcomes[i] == tail[i - 1];
        }
      }
    }
  }
}
