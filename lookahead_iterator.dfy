/**
 * A forward-only source with bounded lookahead. The wrapped enumerator is
 * modelled by the sequence `source` of items it has not yet handed out; taking
 * its head is `enumerator.next`, reading it without taking is `enumerator.peek`.
 */
module Lookahead {

  /** What a fetch yields: an item, or the end of the source (Ruby's StopIteration). */
  datatype Fetched<T> = Ok(value: T) | Exhausted

  function Max(a: int, b: int): int
  {
    if a < b then b else a
  }

  class LookaheadIterator<T> {
    /** Items already pulled from the source for a peek and not yet consumed, in source order. */
    var buffer: seq<T>
    /** What the wrapped enumerator has not yet handed out. */
    var source: seq<T>

    /** The logical stream of items not yet consumed. */
    ghost function Stream(): seq<T>
      reads this
    {
      buffer + source
    }

    constructor (source: seq<T>)
      ensures buffer == [] && this.source == source
      ensures Stream() == source
    {
      this.source := source;
      buffer := [];
    }

    /**
     * Consumes one item: the buffer's head when the buffer holds any,
     * otherwise the source's head. An empty stream yields `Exhausted`
     * and changes nothing.
     */
    method Next() returns (r: Fetched<T>)
      modifies this
      ensures old(Stream()) == [] ==> r == Exhausted && Stream() == []
      ensures old(Stream()) != [] ==> r == Ok(old(Stream())[0]) && Stream() == old(Stream())[1..]
      ensures old(buffer) != [] ==> buffer == old(buffer)[1..] && source == old(source)
      ensures old(buffer) == [] ==> buffer == [] && source == (if old(source) == [] then [] else old(source)[1..])
    {
      if buffer == [] {
        if source == [] {
          r := Exhausted;
        } else {
          r := Ok(source[0]);
          source := source[1..];
        }
      } else {
        r := Ok(buffer[0]);
        buffer := buffer[1..];
      }
    }

    /**
     * Returns the item `lookahead` places past the next unconsumed one
     * without consuming anything. Items are pulled from the source into the
     * buffer only until the buffer holds `lookahead` of them; the item at
     * that distance is then read from the buffer or peeked at the source.
     * When the stream is too short every item pulled so far stays buffered.
     */
    method Peek(lookahead: nat) returns (r: Fetched<T>)
      modifies this
      ensures Stream() == old(Stream())
      ensures lookahead < |old(Stream())| ==> r == Ok(old(Stream())[lookahead])
      ensures lookahead >= |old(Stream())| ==> r == Exhausted
      ensures r.Ok? ==> |buffer| == Max(|old(buffer)|, lookahead)
      ensures r.Exhausted? ==> buffer == old(Stream()) && source == []
    {
      while |buffer| < lookahead
        invariant buffer + source == old(buffer + source)
        invariant |old(buffer)| <= |buffer| <= Max(|old(buffer)|, lookahead)
      {
        if source == [] {
          return Exhausted;
        }
        buffer := buffer + [source[0]];
        source := source[1..];
      }
      if lookahead < |buffer| {
        r := Ok(buffer[lookahead]);
      } else if source == [] {
        r := Exhausted;
      } else {
        r := Ok(source[0]);
      }
    }
  }

  /** A client: `peek` with no distance returns exactly what the following `next` consumes. */
  method PeekThenNext<T>(it: LookaheadIterator<T>) returns (peeked: Fetched<T>, taken: Fetched<T>)
    modifies it
    ensures peeked == taken
    ensures it.Stream() == if old(it.Stream()) == [] then [] else old(it.Stream())[1..]
  {
    peeked := it.Peek(0);
    taken := it.Next();
  }

  /**
   * A client: after any peek, consuming the iterator item by item returns
   * the stream it held before the peek, in order.
   */
  method PeekThenDrain<T>(it: LookaheadIterator<T>, lookahead: nat) returns (items: seq<T>)
    modifies it
    ensures items == old(it.Stream())
    ensures it.Stream() == []
  {
    var _ := it.Peek(lookahead);
    items := [];
    while true
      invariant items + it.Stream() == old(it.Stream())
      decreases |it.Stream()|
    {
      ghost var before := it.Stream();
      var r := it.Next();
      if r.Exhausted? {
        return;
      }
      assert before == [r.value] + it.Stream();
      assert (items + [r.value]) + it.Stream() == items + before;
      items := items + [r.value];
    }
  }
}
