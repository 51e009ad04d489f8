/** The exclusive-ownership stack whose link is the explicit two-case enum
    `More(Box<Node<T>>) | Empty`. Removal of the top node is written once,
    in `PopNode`, and both `Pop` and the hand-written `Drop` go through it.
    As in the other exclusive stack, `&mut self` operations are functions
    from the list before the call to the list after it. */
module BadStack {
  import opened Options
  import Seqs

  /** `More(node)` owns the next node; `Empty` ends the chain. */
  datatype Link<T> = More(node: Node<T>) | Empty

  datatype Node<T> = Node(val: T, next: Link<T>)

  datatype List<T> = List(head: Link<T>)

  /** The abstraction function: the values along the chain, top first. */
  function Elems<T>(link: Link<T>): seq<T>
  {
    match link
    case Empty => []
    case More(n) => [n.val] + Elems(n.next)
  }

  /** The abstract stack a list stands for, top first. */
  function Contents<T>(l: List<T>): seq<T>
  {
    Elems(l.head)
  }

  /** `new`: a list whose head is `Empty`. */
  function New<T>(): (l: List<T>)
    ensures Contents(l) == []
  {
    List(Empty)
  }

  /** `push`: `mem::replace` moves the old chain out of `head` into the new
      node's `next`, leaving `Empty` behind until the new node is stored. */
  function Push<T>(l: List<T>, val: T): (r: List<T>)
    ensures Contents(r) == [val] + Contents(l)
    ensures r.head.More? && r.head.node.next == l.head
  {
    List(More(Node(val, l.head)))
  }

  /** `pop_node`: replaces `head` by `Empty`; if a node was there, swaps its
      `next` with the (now `Empty`) head, so the list keeps the rest of the
      chain and the detached node comes back holding one value and an
      `Empty` link. */
  function PopNode<T>(l: List<T>): (r: (List<T>, Link<T>))
    ensures Contents(l) == [] ==> r.0.head == Empty && r.1 == Empty
    ensures Contents(l) != [] ==>
      && Contents(r.0) == Contents(l)[1..]
      && Elems(r.1) == [Contents(l)[0]]
      && r.1.More? && r.1.node.next == Empty
    ensures l.head.More? ==> r.0.head == l.head.node.next
  {
    match l.head
    case Empty => (List(Empty), Empty)
    case More(n) => (List(n.next), More(n.(next := Empty)))
  }

  /** `pop`: the value of the node `pop_node` detaches, if any. */
  function Pop<T>(l: List<T>): (r: (List<T>, Option<T>))
    ensures Contents(l) == [] ==> r.1 == None && Contents(r.0) == []
    ensures Contents(l) != [] ==> r.1 == Some(Contents(l)[0]) && Contents(r.0) == Contents(l)[1..]
    ensures l.head.More? ==> r.0.head == l.head.node.next
  {
    var (rest, detached) := PopNode(l);
    match detached
    case More(n) => (rest, Some(n.val))
    case Empty => (rest, None)
  }

  /** The hand-written `Drop`: `while let More(_) = self.pop_node() {}`.
      Each iteration detaches one node with an `Empty` link and frees it, so
      no node's destruction reaches the next one; the loop stops at the
      first `pop_node` that returns `Empty`. Returns the emptied list, the
      values released, in the order they were freed, and the number of
      iterations the loop ran. */
  method Drop<T>(l: List<T>) returns (emptied: List<T>, released: seq<T>, iterations: nat)
    ensures emptied.head == Empty
    ensures released == Contents(l)
    ensures iterations == |Contents(l)|
  {
    released := [];
    iterations := 0;
    var step := PopNode(l);
    emptied := step.0;
    var detached := step.1;
    while detached.More?
      invariant detached.More? ==> released + [detached.node.val] + Contents(emptied) == Contents(l)
      invariant detached.Empty? ==> released == Contents(l) && emptied.head == Empty
      invariant iterations == |released|
      decreases |Contents(emptied)|, detached.More?
    {
      released := released + [detached.node.val];
      iterations := iterations + 1;
      step := PopNode(emptied);
      emptied, detached := step.0, step.1;
    }
  }

  /** Pushes the values of `vals` one after another, `vals[0]` first. */
  function PushAll<T>(l: List<T>, vals: seq<T>): List<T>
    decreases |vals|
  {
    if vals == [] then l else PushAll(Push(l, vals[0]), vals[1..])
  }

  /** Pops `n` times, collecting every result including the `None`s. */
  function PopN<T>(l: List<T>, n: nat): (List<T>, seq<Option<T>>)
    decreases n
  {
    if n == 0 then (l, [])
    else
      var (rest, val) := Pop(l);
      var (final, vals) := PopN(rest, n - 1);
      (final, [val] + vals)
  }

  /** The last value pushed ends up on top. */
  lemma {:induction false} PushAllContents<T>(l: List<T>, vals: seq<T>)
    ensures Contents(PushAll(l, vals)) == Seqs.Reverse(vals) + Contents(l)
    decreases |vals|
  {
    if vals != [] {
      PushAllContents(Push(l, vals[0]), vals[1..]);
    }
  }

  /** Popping `n` times yields the stack's values top first, then `None`
      for every pop past the bottom. */
  lemma {:induction false} PopNYields<T>(l: List<T>, n: nat)
    ensures |PopN(l, n).1| == n
    ensures forall i :: 0 <= i < n ==>
      PopN(l, n).1[i] == (if i < |Contents(l)| then Some(Contents(l)[i]) else None)
    decreases n
  {
    if n > 0 {
      var (rest, val) := Pop(l);
      PopNYields(rest, n - 1);
    }
  }

  /** `push` then `pop` hands back the pushed value and the list as it was. */
  lemma PushPop<T>(l: List<T>, val: T)
    ensures Pop(Push(l, val)) == (l, Some(val))
  {
  }

  /** LIFO: after pushing `vals` onto a new list, `|vals| + 1` pops yield
      the values in reverse order and then `None`. */
  lemma Lifo<T>(vals: seq<T>)
    ensures var out := PopN(PushAll(New(), vals), |vals| + 1).1;
      && |out| == |vals| + 1
      && (forall i :: 0 <= i < |vals| ==> out[i] == Some(vals[|vals| - 1 - i]))
      && out[|vals|] == None
  {
    PushAllContents(New(), vals);
    PopNYields(PushAll(New(), vals), |vals| + 1);
  }

  /** Pushing 1, 2, 3 and popping four times yields 3, 2, 1, `None`. */
  lemma LifoOneTwoThree()
    ensures PopN(PushAll(New(), [1, 2, 3]), 4).1 == [Some(3), Some(2), Some(1), None]
  {
    Lifo([1, 2, 3]);
  }
}
