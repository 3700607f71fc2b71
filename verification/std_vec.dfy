/** `Vec<T>`: a growable array. The elements live in the first `len` slots
    of a heap buffer; `push` reallocates a larger buffer when it is full. */
module StdVec {
  import opened Prim

  /** Capacity of the first buffer a `push` allocates. */
  const MIN_CAPACITY: nat := 4

  class Vec<T(0)> {
    var buf: array<T>
    var len: nat

    ghost predicate Valid()
      reads this
    {
      len <= buf.Length
    }

    /** The elements in index order. */
    function Elements(): seq<T>
      reads this, buf
      requires Valid()
    {
      buf[..len]
    }

    /** `Vec::new()`: no elements and no allocation yet. */
    constructor New()
      ensures Valid() && fresh(buf)
      ensures Elements() == []
    {
      buf := new T[0];
      len := 0;
    }

    /** `vec![x0, x1, ...]`: the listed elements, in order. */
    constructor FromSeq(xs: seq<T>)
      ensures Valid() && fresh(buf)
      ensures Elements() == xs
    {
      var a := new T[|xs|](k requires 0 <= k < |xs| => xs[k]);
      assert a[..] == xs;
      buf, len := a, |xs|;
    }

    /** `len()`. */
    function Len(): (n: nat)
      reads this, buf
      requires Valid()
      ensures n == |Elements()|
    {
      len
    }

    /** `push(x)`: `x` becomes the last element; the earlier elements keep
        their positions. A full buffer is first copied into one twice as
        large. */
    method Push(x: T)
      requires Valid()
      modifies this, buf
      ensures Valid()
      ensures buf == old(buf) || fresh(buf)
      ensures Elements() == old(Elements()) + [x]
    {
      if len == buf.Length {
        var capacity := if 2 * buf.Length > MIN_CAPACITY then 2 * buf.Length else MIN_CAPACITY;
        var grown := new T[capacity];
        var k := 0;
        while k < len
          invariant 0 <= k <= len
          invariant grown[..k] == buf[..k]
          modifies grown
        {
          grown[k] := buf[k];
          k := k + 1;
        }
        buf := grown;
      }
      buf[len] := x;
      len := len + 1;
    }

    /** `&v[i]`: the element at `i`. Indexing past the end panics, so the
        index must be in range. */
    function Index(i: nat): (r: T)
      reads this, buf
      requires Valid() && i < |Elements()|
      ensures r == Elements()[i]
    {
      buf[i]
    }

    /** `get(i)`: `Some` of the element at `i` when `i` is in range, and
        `None` exactly where indexing would panic. */
    function Get(i: nat): (r: Option<T>)
      reads this, buf
      requires Valid()
      ensures r.Some? <==> i < |Elements()|
      ensures r.Some? ==> r.value == Index(i)
    {
      if i < len then Some(buf[i]) else None
    }
  }
}
