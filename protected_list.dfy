/** `ProtectedList` of `tuner_audio/threading_helper.py`: the bounded FIFO
    through which the tuner's analyzer hands frequencies to the tuner. The
    lock only serialises `put` and `get`; the model is the sequential
    queue. */
module ProtectedQueue {
  import opened Common

  const DEFAULT_BUFFER_SIZE: nat := 8

  /** The contents after `put(x)`: append, then drop the oldest element if
      the capacity is exceeded. */
  function Pushed<T>(elements: seq<T>, x: T, bufferSize: nat): seq<T> {
    var e := elements + [x];
    if |e| > bufferSize then e[1..] else e
  }

  /** The contents after putting each of `xs` in turn. */
  function PushedAll<T>(elements: seq<T>, xs: seq<T>, bufferSize: nat): seq<T> {
    if xs == [] then elements else Pushed(PushedAll(elements, xs[..|xs| - 1], bufferSize), xs[|xs| - 1], bufferSize)
  }

  /** The last `n` elements of `s` (all of them when there are fewer). */
  function Last<T>(s: seq<T>, n: nat): (r: seq<T>)
    ensures |r| == if |s| < n then |s| else n
  {
    if |s| <= n then s else s[|s| - n..]
  }

  /** `put` keeps the length within the capacity and the newest element
      last; below capacity it appends, at capacity it drops exactly the
      oldest element. */
  lemma PushedShape<T>(elements: seq<T>, x: T, bufferSize: nat)
    requires |elements| <= bufferSize
    ensures |Pushed(elements, x, bufferSize)| <= bufferSize
    ensures bufferSize > 0 ==> Pushed(elements, x, bufferSize)[|Pushed(elements, x, bufferSize)| - 1] == x
    ensures |elements| < bufferSize ==> Pushed(elements, x, bufferSize) == elements + [x]
    ensures |elements| == bufferSize ==> Pushed(elements, x, bufferSize) == (elements + [x])[1..]
  {
  }

  /** Starting from an empty queue, a series of puts leaves the most recent
      `bufferSize` values, in the order they were put. */
  lemma {:induction false} PushedAllKeepsLatest<T>(xs: seq<T>, bufferSize: nat)
    ensures PushedAll([], xs, bufferSize) == Last(xs, bufferSize)
  {
    if xs != [] {
      var init, x := xs[..|xs| - 1], xs[|xs| - 1];
      PushedAllKeepsLatest(init, bufferSize);
      var q := Last(init, bufferSize);
      if |init| < bufferSize {
        assert q + [x] == xs;
      } else if bufferSize == 0 {
        assert Pushed(q, x, bufferSize) == [];
      } else {
        assert (q + [x])[1..] == xs[|xs| - bufferSize..];
      }
    }
  }

  class ProtectedList<T> {
    var elements: seq<T>
    const bufferSize: nat

    ghost predicate Valid()
      reads this
    {
      |elements| <= bufferSize
    }

    constructor (bufferSize: nat)
      ensures Valid()
      ensures elements == [] && this.bufferSize == bufferSize
    {
      elements := [];
      this.bufferSize := bufferSize;
    }

    /** `ProtectedList()`: the default capacity is 8. */
    constructor Default()
      ensures Valid()
      ensures elements == [] && bufferSize == DEFAULT_BUFFER_SIZE
    {
      elements := [];
      bufferSize := DEFAULT_BUFFER_SIZE;
    }

    method Put(x: T)
      requires Valid()
      modifies this`elements
      ensures Valid()
      ensures elements == Pushed(old(elements), x, bufferSize)
    {
      elements := elements + [x];
      if |elements| > bufferSize {
        elements := elements[1..];
      }
    }

    /** Take the oldest element, or `None` from an empty queue. */
    method Get() returns (r: Option<T>)
      requires Valid()
      modifies this`elements
      ensures Valid()
      ensures old(elements) == [] ==> r == None && elements == []
      ensures old(elements) != [] ==> r == Some(old(elements)[0]) && elements == old(elements)[1..]
    {
      if elements != [] {
        r := Some(elements[0]);
        elements := elements[1..];
      } else {
        r := None;
      }
    }
  }
}
