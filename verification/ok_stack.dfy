/** The exclusive-ownership stack whose link is `Option<Box<Node<T>>>`.

    Every `&mut self` operation is modelled as a function from the list
    before the call to the list after it, paired with the call's result.
    A `Box` is the node value itself: each node has exactly one owner, so
    every chain is finite and no cycle can be written down. */
module OkStack {
  import opened Options
  import Seqs

  /** A node owns its value and, through `next`, the rest of the chain. */
  datatype Node<T> = Node(val: T, next: Link<T>)

  /** `None` ends the chain; `Some(node)` owns the next node. */
  type Link<T> = Option<Node<T>>

  datatype List<T> = List(head: Link<T>)

  /** The abstraction function: the values along the chain, top first. */
  function Elems<T>(link: Link<T>): seq<T>
  {
    match link
    case None => []
    case Some(n) => [n.val] + Elems(n.next)
  }

  /** The abstract stack a list stands for, top first. */
  function Contents<T>(l: List<T>): seq<T>
  {
    Elems(l.head)
  }

  /** The one chain whose values are `s`: the inverse of `Elems`. */
  function Chain<T>(s: seq<T>): (link: Link<T>)
    ensures Elems(link) == s
  {
    if s == [] then None else Some(Node(s[0], Chain(s[1..])))
  }

  /** A chain is determined by its values, so `Chain` undoes `Elems`. */
  lemma {:induction false} ChainOfElems<T>(link: Link<T>)
    ensures Chain(Elems(link)) == link
  {
    match link
    case None =>
    case Some(n) =>
      assert Elems(link)[1..] == Elems(n.next);
      ChainOfElems(n.next);
  }

  /** Two lists with the same contents are the same list, so a contract
      stated through `Contents` fixes the resulting list exactly. */
  lemma ContentsDetermine<T>(a: List<T>, b: List<T>)
    requires Contents(a) == Contents(b)
    ensures a == b
  {
    ChainOfElems(a.head);
    ChainOfElems(b.head);
  }

  /** `new`: a list with no node. */
  function New<T>(): (l: List<T>)
    ensures Contents(l) == []
  {
    List(None)
  }

  /** `push`: the old chain is taken out of `head` and becomes the new
      node's `next`: the new node's link equals the old head. */
  function Push<T>(l: List<T>, val: T): (r: List<T>)
    ensures Contents(r) == [val] + Contents(l)
    ensures r.head.Some? && r.head.value.next == l.head
  {
    List(Some(Node(val, l.head)))
  }

  /** `pop`: `take` empties `head`; when there was a node its `next` becomes
      the new head and its value is returned. */
  function Pop<T>(l: List<T>): (r: (List<T>, Option<T>))
    ensures Contents(l) == [] ==> r.1 == None && Contents(r.0) == []
    ensures Contents(l) != [] ==> r.1 == Some(Contents(l)[0]) && Contents(r.0) == Contents(l)[1..]
    ensures l.head.Some? ==> r.0.head == l.head.value.next
  {
    match l.head
    case None => (List(None), None)
    case Some(node) => (List(node.next), Some(node.val))
  }

  /** `peek`: the top value, if any, without touching the list. */
  function Peek<T>(l: List<T>): (r: Option<T>)
    ensures r.None? <==> Contents(l) == []
    ensures r.Some? ==> r.value == Contents(l)[0]
  {
    match l.head
    case None => None
    case Some(node) => Some(node.val)
  }

  /** `peek_mut` followed by a write through the reference it hands out:
      `update` is what the caller does to the value behind the reference.
      The result pairs the list after the write with the value the
      reference then shows; an empty list hands out no reference and is
      left as it was. */
  function PeekMut<T>(l: List<T>, update: T -> T): (r: (List<T>, Option<T>))
    ensures Contents(l) == [] ==> r.1 == None && r.0 == l
    ensures Contents(l) != [] ==>
      && r.1 == Some(update(Contents(l)[0]))
      && Contents(r.0) == [update(Contents(l)[0])] + Contents(l)[1..]
    ensures l.head.Some? ==> r.0.head.Some? && r.0.head.value.next == l.head.value.next
  {
    match l.head
    case None => (l, None)
    case Some(node) => (List(Some(node.(val := update(node.val)))), Some(update(node.val)))
  }

  /** After a write through `peek_mut`, `peek` sees the written value. */
  lemma PeekAfterPeekMut<T>(l: List<T>, update: T -> T)
    ensures Peek(PeekMut(l, update).0) == PeekMut(l, update).1
  {
  }

  /** `IntoIter`: owns the list it drains. */
  datatype IntoIter<T> = IntoIter(list: List<T>)

  /** `into_iter`: hands the whole list to the iterator. */
  function IntoIterOf<T>(l: List<T>): (it: IntoIter<T>)
    ensures it.list == l
    ensures Contents(it.list) == Contents(l)
  {
    IntoIter(l)
  }

  /** `IntoIter::next`: one `pop` of the owned list. */
  function IntoIterNext<T>(it: IntoIter<T>): (r: (IntoIter<T>, Option<T>))
    ensures Contents(it.list) == [] ==> r.1 == None && Contents(r.0.list) == []
    ensures Contents(it.list) != [] ==>
      r.1 == Some(Contents(it.list)[0]) && Contents(r.0.list) == Contents(it.list)[1..]
    ensures it.list.head.Some? ==> r.0.list.head == it.list.head.value.next
  {
    var (rest, val) := Pop(it.list);
    (IntoIter(rest), val)
  }

  /** `list.into_iter().collect()`: calls `next` until it yields `None`. */
  method CollectIntoIter<T>(l: List<T>) returns (out: seq<T>)
    ensures out == Contents(l)
  {
    var it := IntoIterOf(l);
    out := [];
    var done := false;
    while !done
      invariant !done ==> out + Contents(it.list) == Contents(l)
      invariant done ==> out == Contents(l)
      decreases |Contents(it.list)|, !done
    {
      var (next, item) := IntoIterNext(it);
      it := next;
      match item
      case None => done := true;
      case Some(v) => out := out + [v];
    }
  }

  /** `Iter`: a cursor onto the node to be read next. */
  datatype Iter<T> = Iter(next: Link<T>)

  /** `iter`: a cursor on the head; the list itself is only read. */
  function IterOf<T>(l: List<T>): (it: Iter<T>)
    ensures Elems(it.next) == Contents(l)
  {
    Iter(l.head)
  }

  /** `Iter::next`: reads the node under the cursor and moves to its `next`;
      once the cursor is past the end it stays there. */
  function IterNext<T>(it: Iter<T>): (r: (Iter<T>, Option<T>))
    ensures Elems(it.next) == [] ==> r.1 == None && Elems(r.0.next) == []
    ensures Elems(it.next) != [] ==>
      r.1 == Some(Elems(it.next)[0]) && Elems(r.0.next) == Elems(it.next)[1..]
    ensures it.next.Some? ==> r.0.next == it.next.value.next
  {
    match it.next
    case None => (it, None)
    case Some(node) => (Iter(node.next), Some(node.val))
  }

  /** Reads a list through `iter` until the cursor yields `None`. */
  method CollectIter<T>(l: List<T>) returns (out: seq<T>)
    ensures out == Contents(l)
  {
    var it := IterOf(l);
    out := [];
    var done := false;
    while !done
      invariant !done ==> out + Elems(it.next) == Contents(l)
      invariant done ==> out == Contents(l)
      decreases |Elems(it.next)|, !done
    {
      var (next, item) := IterNext(it);
      it := next;
      match item
      case None => done := true;
      case Some(v) => out := out + [v];
    }
  }

  /** The hand-written `Drop`: takes the chain out of `head`, then detaches
      one node per iteration, taking its `next` before the node is freed so
      that no node's destruction reaches the next one. Returns the emptied
      list, the values released, in the order they were freed, and the
      number of iterations the loop ran. */
  method Drop<T>(l: List<T>) returns (emptied: List<T>, released: seq<T>, iterations: nat)
    ensures emptied.head == None
    ensures released == Contents(l)
    ensures iterations == |Contents(l)|
  {
    var current := l.head;
    emptied := List(None);
    released := [];
    iterations := 0;
    while current.Some?
      invariant released + Elems(current) == Contents(l)
      invariant iterations == |released|
      decreases |Elems(current)|
    {
      var node := current.value;
      current := node.next;
      var freed := node.(next := None);
      released := released + [freed.val];
      iterations := iterations + 1;
    }
  }

  /** Pushes the values of `vals` one after another, `vals[0]` first. */
  function PushAll<T>(l: List<T>, vals: seq<T>): List<T>
    decreases |vals|
  {
    if vals == [] then l else PushAll(Push(l, vals[0]), vals[1..])
  }

  /** Pops `n` times, collecting every result including the `None`s. */
  function PopN<T>(l: List<T>, n: nat): (List<T>, seq<Option<T>>)
    decreases n
  {
    if n == 0 then (l, [])
    else
      var (rest, val) := Pop(l);
      var (final, vals) := PopN(rest, n - 1);
      (final, [val] + vals)
  }

  /** The last value pushed ends up on top. */
  lemma {:induction false} PushAllContents<T>(l: List<T>, vals: seq<T>)
    ensures Contents(PushAll(l, vals)) == Seqs.Reverse(vals) + Contents(l)
    decreases |vals|
  {
    if vals != [] {
      PushAllContents(Push(l, vals[0]), vals[1..]);
    }
  }

  /** Popping `n` times yields the stack's values top first, then `None`
      for every pop past the bottom. */
  lemma {:induction false} PopNYields<T>(l: List<T>, n: nat)
    ensures |PopN(l, n).1| == n
    ensures forall i :: 0 <= i < n ==>
      PopN(l, n).1[i] == (if i < |Contents(l)| then Some(Contents(l)[i]) else None)
    decreases n
  {
    if n > 0 {
      var (rest, val) := Pop(l);
      PopNYields(rest, n - 1);
    }
  }

  /** `push` then `pop` hands back the pushed value and the list as it was. */
  lemma PushPop<T>(l: List<T>, val: T)
    ensures Pop(Push(l, val)) == (l, Some(val))
  {
  }

  /** LIFO: after pushing `vals` onto a new list, `|vals| + 1` pops yield
      the values in reverse order and then `None`. */
  lemma Lifo<T>(vals: seq<T>)
    ensures var out := PopN(PushAll(New(), vals), |vals| + 1).1;
      && |out| == |vals| + 1
      && (forall i :: 0 <= i < |vals| ==> out[i] == Some(vals[|vals| - 1 - i]))
      && out[|vals|] == None
  {
    PushAllContents(New(), vals);
    PopNYields(PushAll(New(), vals), |vals| + 1);
  }

  /** Pushing 1, 2, 3 and popping four times yields 3, 2, 1, `None`. */
  lemma LifoOneTwoThree()
    ensures PopN(PushAll(New(), [1, 2, 3]), 4).1 == [Some(3), Some(2), Some(1), None]
  {
    Lifo([1, 2, 3]);
  }
}
