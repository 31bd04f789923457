/** `simple_stack<T>`: a LIFO over std::stack whose pop reports emptiness instead of failing. */
module Stack {
  import opened Wrappers

  /** `s` back to front: the order in which a stack holding `s` pops its elements. */
  function Reverse<T>(s: seq<T>): (r: seq<T>)
    ensures |r| == |s| && multiset(r) == multiset(s)
  {
    if s == [] then []
    else
      assert s == s[..|s| - 1] + [s[|s| - 1]];
      [s[|s| - 1]] + Reverse(s[..|s| - 1])
  }

  lemma {:induction false} ReverseAt<T>(s: seq<T>, k: nat)
    requires k < |s|
    ensures Reverse(s)[k] == s[|s| - 1 - k]
  {
    if k > 0 {
      ReverseAt(s[..|s| - 1], k - 1);
    }
  }

  /** What a drain loop still has to take: the element just popped, then the rest, top first. */
  ghost function Pending<T>(next: Option<T>, elems: seq<T>): seq<T> {
    (if next.Some? then [next.value] else []) + Reverse(elems)
  }

  /** Popping does not change what remains to be taken. */
  lemma PopPending<T>(elems: seq<T>)
    ensures elems == [] ==> Pending(None, elems) == Reverse(elems)
    ensures elems != [] ==> Pending(Some(elems[|elems| - 1]), elems[..|elems| - 1]) == Reverse(elems)
  {
  }

  class SimpleStack<T> {
    /** The stacked elements, bottom first: the top of the stack is the last element. */
    var elems: seq<T>

    constructor ()
      ensures elems == []
    {
      elems := [];
    }

    method Push(x: T)
      modifies this
      ensures elems == old(elems) + [x]
    {
      elems := elems + [x];
    }

    /** Removes and returns the most recently pushed element; on an empty stack returns none and changes nothing. */
    method Pop() returns (r: Option<T>)
      modifies this
      ensures old(elems) == [] ==> r == None && elems == old(elems)
      ensures old(elems) != [] ==> r == Some(old(elems)[|old(elems)| - 1]) && elems == old(elems)[..|old(elems)| - 1]
    {
      if elems == [] {
        return None;
      }
      var top := elems[|elems| - 1];
      elems := elems[..|elems| - 1];
      return Some(top);
    }

    /** Holds exactly when every pushed element has been popped again. */
    method Empty() returns (b: bool)
      ensures b <==> elems == []
    {
      b := elems == [];
    }
  }
}
