/** Values that travel on one call's queues, the queues themselves and the
    coordination flags the stages share. */
module Pipeline {

  /** One audio sample. The source holds float32 samples; no behaviour kept in
      this model does arithmetic on them, so an integer stands in. */
  type Sample = int

  datatype Option<T> = None | Some(value: T)

  /** An object taken off or put on a queue. `Stop` is Python's `None`, which
      every stage reads as "shut down"; `Audio` is a one-dimensional numpy
      array; `Text` is a `str`. A stage that expects an array and receives a
      string (or the other way round) sees a value that fails its
      `isinstance` check. */
  datatype Item = Stop | Audio(samples: seq<Sample>) | Text(text: string)

  /** The zero or one items a stage offers for one input. */
  function Emitted(o: Option<Item>): (r: seq<Item>)
    ensures |r| <= 1
    ensures r == [] <==> o.None?
    ensures o.Some? ==> r[0] == o.value
  {
    match o
    case None => []
    case Some(x) => [x]
  }

  function Min(a: int, b: int): int { if a <= b then a else b }

  /** A `queue.Queue(maxsize)` refuses `put_nowait` exactly when it is full;
      `maxsize == 0` means unbounded. */
  predicate IsFull(items: seq<Item>, maxsize: nat) {
    0 < maxsize <= |items|
  }

  /** The free places left in a queue holding `items`. */
  function Room(items: seq<Item>, maxsize: nat): nat
    requires maxsize > 0
  {
    if |items| < maxsize then maxsize - |items| else 0
  }

  /** The contents of a queue after `xs` have been offered to it one by one with
      `put_nowait` while no consumer takes anything off: each offer is accepted
      until the queue is full and refused from then on. */
  function Offer(items: seq<Item>, maxsize: nat, xs: seq<Item>): (r: seq<Item>)
    ensures |items| <= |r| <= |items| + |xs|
    ensures r == items + xs[..|r| - |items|]
    ensures maxsize == 0 ==> r == items + xs
    ensures |r| < |items| + |xs| ==> IsFull(r, maxsize)
  {
    if maxsize == 0 then items + xs
    else items + xs[..Min(|xs|, Room(items, maxsize))]
  }

  /** Offering one more item appends it exactly when the queue is not yet full. */
  lemma OfferSnoc(items: seq<Item>, maxsize: nat, xs: seq<Item>, x: Item)
    ensures Offer(items, maxsize, xs + [x]) ==
            var q := Offer(items, maxsize, xs);
            if IsFull(q, maxsize) then q else q + [x]
  {
    var q := Offer(items, maxsize, xs);
    if maxsize > 0 {
      var n := Min(|xs|, Room(items, maxsize));
      assert q == items + xs[..n];
      if IsFull(q, maxsize) {
        assert (xs + [x])[..Min(|xs| + 1, Room(items, maxsize))] == xs[..n];
      } else {
        assert (xs + [x])[..Min(|xs| + 1, Room(items, maxsize))] == xs[..n] + [x];
      }
    }
  }

  /** A stage's offers for one more input continue where the earlier ones
      left the queue. */
  lemma OfferEmitted(items: seq<Item>, maxsize: nat, xs: seq<Item>, o: Option<Item>)
    ensures Offer(items, maxsize, xs + Emitted(o)) == Offer(Offer(items, maxsize, xs), maxsize, Emitted(o))
  {
    var q := Offer(items, maxsize, xs);
    if o.Some? {
      OfferSnoc(items, maxsize, xs, o.value);
      OfferSnoc(q, maxsize, [], o.value);
      assert [] + [o.value] == [o.value];
    } else {
      assert xs + Emitted(o) == xs;
    }
  }

  /** Once a queue refuses an offer it refuses every later one. */
  lemma OfferFull(items: seq<Item>, maxsize: nat, xs: seq<Item>, ys: seq<Item>)
    requires IsFull(Offer(items, maxsize, xs), maxsize)
    ensures Offer(items, maxsize, xs + ys) == Offer(items, maxsize, xs)
  {
    var n := Min(|xs|, Room(items, maxsize));
    assert Room(items, maxsize) <= |xs|;
    assert (xs + ys)[..Min(|xs + ys|, Room(items, maxsize))] == xs[..n];
  }

  /** The number of items a stage consumes before it meets the `None` sentinel
      (all of them when none is there). */
  function StopIndex(xs: seq<Item>): (k: nat)
    ensures k <= |xs|
    ensures forall j :: 0 <= j < k ==> !xs[j].Stop?
    ensures k < |xs| ==> xs[k].Stop?
  {
    if xs == [] || xs[0].Stop? then 0 else 1 + StopIndex(xs[1..])
  }

  /** The items a stage's loop processes: those before the first `None`. */
  function UntilStop(xs: seq<Item>): (r: seq<Item>)
    ensures |r| <= |xs| && r == xs[..|r|]
    ensures forall j :: 0 <= j < |r| ==> !r[j].Stop?
    ensures |r| < |xs| ==> xs[|r|].Stop?
  {
    xs[..StopIndex(xs)]
  }

  /** A loop that has processed `i` items without meeting `None` is still
      inside the part before the sentinel. */
  lemma StopIndexBound(xs: seq<Item>, i: nat)
    requires i <= |xs|
    requires forall j :: 0 <= j < i ==> !xs[j].Stop?
    ensures i <= StopIndex(xs)
  {
  }

  /** A loop that has passed `i` items without meeting `None` and finds no
      `None` at `i` has passed `i + 1` such items. */
  lemma NoStopExtend(xs: seq<Item>, i: nat)
    requires i < |xs| && !xs[i].Stop?
    requires forall j :: 0 <= j < i ==> !xs[j].Stop?
    ensures forall j :: 0 <= j < i + 1 ==> !xs[j].Stop?
  {
  }

  /** A queue as `queue.Queue(maxsize)`; the stages use only `put_nowait`
      (the items a stage takes off its input queue are given to it as a
      sequence). */
  class Queue {
    var items: seq<Item>
    const maxsize: nat

    constructor (maxsize: nat)
      ensures items == [] && this.maxsize == maxsize
    {
      this.maxsize := maxsize;
      items := [];
    }

    predicate Full()
      reads this
    {
      IsFull(items, maxsize)
    }

    /** `put_nowait`: appends `x`, or raises `queue.Full` (here `ok == false`)
        and leaves the queue as it was. */
    method PutNowait(x: Item) returns (ok: bool)
      modifies this
      ensures ok == !old(Full())
      ensures items == if ok then old(items) + [x] else old(items)
      ensures items == Offer(old(items), maxsize, [x])
    {
      ok := !Full();
      if ok {
        items := items + [x];
      }
      OfferSnoc(old(items), maxsize, [], x);
    }
  }

  /** The per-call `flag_dict` entries that stages read and write. */
  class FlagDict {
    var speechEnded: bool
    var voiceDetected: bool

    constructor ()
      ensures !speechEnded && !voiceDetected
    {
      speechEnded := false;
      voiceDetected := false;
    }
  }
}
