/** The persistent stack whose link is `Option<Rc<Node<T>>>`.

    Nodes are never changed after they are made, and `prepend` and `tail`
    return a new list while the receiver stays as it was. An `Rc` is a
    shared reference to an immutable node, so it is modelled as the node
    value itself: two lists that share a suffix of their chains hold equal
    values there, and "reuses the chain" is stated as equality of links.
    Reference counts and the deallocation they drive are not modelled. */
module PersistentStack {
  import opened Options
  import Seqs

  /** An immutable node: its value and the link fixed when it was made. */
  datatype Node<T> = Node(val: T, next: Link<T>)

  /** `None` ends the chain; `Some(node)` shares the next node. */
  type Link<T> = Option<Node<T>>

  datatype List<T> = List(head: Link<T>)

  /** The abstraction function: the values along the chain, top first. */
  function Elems<T>(link: Link<T>): seq<T>
  {
    match link
    case None => []
    case Some(n) => [n.val] + Elems(n.next)
  }

  /** The abstract stack a list stands for, top first. */
  function Contents<T>(l: List<T>): seq<T>
  {
    Elems(l.head)
  }

  /** `new`: a list with no node. */
  function New<T>(): (l: List<T>)
    ensures Contents(l) == []
  {
    List(None)
  }

  /** `prepend`: one new node whose `next` is a clone of the receiver's
      head, that is, a second reference to the same chain. */
  function Prepend<T>(l: List<T>, val: T): (r: List<T>)
    ensures Contents(r) == [val] + Contents(l)
    ensures r.head.Some? && r.head.value.next == l.head
  {
    List(Some(Node(val, l.head)))
  }

  /** `tail`: a list on the receiver's second node, sharing it; no node is
      made. The tail of an empty list is empty. */
  function Tail<T>(l: List<T>): (r: List<T>)
    ensures Contents(l) == [] ==> Contents(r) == []
    ensures Contents(l) != [] ==> Contents(r) == Contents(l)[1..]
    ensures l.head.Some? ==> r.head == l.head.value.next
  {
    match l.head
    case None => List(None)
    case Some(node) => List(node.next)
  }

  /** `head`: the top value, if any. */
  function Head<T>(l: List<T>): (r: Option<T>)
    ensures r.None? <==> Contents(l) == []
    ensures r.Some? ==> r.value == Contents(l)[0]
  {
    match l.head
    case None => None
    case Some(node) => Some(node.val)
  }

  /** `Iter`: a cursor onto the node to be read next. */
  datatype Iter<T> = Iter(next: Link<T>)

  /** `iter`: a cursor on the head. */
  function IterOf<T>(l: List<T>): (it: Iter<T>)
    ensures Elems(it.next) == Contents(l)
  {
    Iter(l.head)
  }

  /** `Iter::next`: reads the node under the cursor and moves to its `next`;
      once the cursor is past the end it stays there. */
  function IterNext<T>(it: Iter<T>): (r: (Iter<T>, Option<T>))
    ensures Elems(it.next) == [] ==> r.1 == None && Elems(r.0.next) == []
    ensures Elems(it.next) != [] ==>
      r.1 == Some(Elems(it.next)[0]) && Elems(r.0.next) == Elems(it.next)[1..]
    ensures it.next.Some? ==> r.0.next == it.next.value.next
  {
    match it.next
    case None => (it, None)
    case Some(node) => (Iter(node.next), Some(node.val))
  }

  /** Reads a list through `iter` until the cursor yields `None`. */
  method CollectIter<T>(l: List<T>) returns (out: seq<T>)
    ensures out == Contents(l)
  {
    var it := IterOf(l);
    out := [];
    var done := false;
    while !done
      invariant !done ==> out + Elems(it.next) == Contents(l)
      invariant done ==> out == Contents(l)
      decreases |Elems(it.next)|, !done
    {
      var (next, item) := IterNext(it);
      it := next;
      match item
      case None => done := true;
      case Some(v) => out := out + [v];
    }
  }

  /** `tail` undoes `prepend` exactly: the result equals the receiver of
      the `prepend`, chain and all. */
  lemma TailOfPrepend<T>(l: List<T>, val: T)
    ensures Tail(Prepend(l, val)) == l
  {
  }

  /** Prepends the values of `vals` one after another, `vals[0]` first. */
  function PrependAll<T>(l: List<T>, vals: seq<T>): List<T>
    decreases |vals|
  {
    if vals == [] then l else PrependAll(Prepend(l, vals[0]), vals[1..])
  }

  /** Takes `tail` `n` times. */
  function TailN<T>(l: List<T>, n: nat): List<T>
    decreases n
  {
    if n == 0 then l else TailN(Tail(l), n - 1)
  }

  /** The last value prepended ends up on top. */
  lemma {:induction false} PrependAllContents<T>(l: List<T>, vals: seq<T>)
    ensures Contents(PrependAll(l, vals)) == Seqs.Reverse(vals) + Contents(l)
    decreases |vals|
  {
    if vals != [] {
      PrependAllContents(Prepend(l, vals[0]), vals[1..]);
    }
  }

  /** `TailN` of a `PrependAll` on `l` peels the new nodes off again. */
  lemma {:induction false} TailNPrependAll<T>(l: List<T>, vals: seq<T>, k: nat)
    requires k <= |vals|
    ensures TailN(PrependAll(l, vals), k) == PrependAll(l, vals[..|vals| - k])
    decreases |vals|
  {
    if k == 0 {
      assert vals[..|vals|] == vals;
    } else {
      var last := vals[|vals| - 1];
      var init := vals[..|vals| - 1];
      PrependAllSnoc(l, init, last);
      assert vals == init + [last];
      calc {
        TailN(PrependAll(l, vals), k);
        TailN(Prepend(PrependAll(l, init), last), k);
        TailN(Tail(Prepend(PrependAll(l, init), last)), k - 1);
        { TailOfPrepend(PrependAll(l, init), last); }
        TailN(PrependAll(l, init), k - 1);
        { TailNPrependAll(l, init, k - 1); }
        PrependAll(l, init[..|init| - (k - 1)]);
        { assert init[..|init| - (k - 1)] == vals[..|vals| - k]; }
        PrependAll(l, vals[..|vals| - k]);
      }
    }
  }

  /** Prepending `init` and then `last` is prepending `init + [last]`. */
  lemma {:induction false} PrependAllSnoc<T>(l: List<T>, init: seq<T>, last: T)
    ensures PrependAll(l, init + [last]) == Prepend(PrependAll(l, init), last)
    decreases |init|
  {
    if init == [] {
      assert init + [last] == [last];
    } else {
      assert (init + [last])[1..] == init[1..] + [last];
      PrependAllSnoc(Prepend(l, init[0]), init[1..], last);
    }
  }

  /** Structural sharing: taking `tail` once per prepended value gives back
      a list equal to the one the values were prepended to. */
  lemma SharedSuffix<T>(l: List<T>, vals: seq<T>)
    ensures TailN(PrependAll(l, vals), |vals|) == l
  {
    TailNPrependAll(l, vals, |vals|);
  }

  /** LIFO: reading `head` after each `tail` of a list built by prepending
      `vals` to a new list gives the values in reverse order, then `None`. */
  lemma Lifo<T>(vals: seq<T>)
    ensures forall i :: 0 <= i < |vals| ==>
      Head(TailN(PrependAll(New(), vals), i)) == Some(vals[|vals| - 1 - i])
    ensures Head(TailN(PrependAll(New(), vals), |vals|)) == None
  {
    forall i | 0 <= i < |vals|
      ensures Head(TailN(PrependAll(New(), vals), i)) == Some(vals[|vals| - 1 - i])
    {
      TailNPrependAll(New(), vals, i);
      var prefix := vals[..|vals| - i];
      PrependAllContents(New<T>(), prefix);
    }
    SharedSuffix(New<T>(), vals);
  }

  /** `new` has no head; after prepending 1, 2, 3 the head is 3; prepending
      4 and taking `tail` gives head 3 again; the tail of `new` has no head. */
  lemma Basics()
    ensures Head(New<int>()) == None
    ensures Head(PrependAll(New(), [1, 2, 3])) == Some(3)
    ensures Head(Tail(Prepend(PrependAll(New(), [1, 2, 3]), 4))) == Some(3)
    ensures Head(Tail(New<int>())) == None
  {
  }
}
