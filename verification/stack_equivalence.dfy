/** The two exclusive stacks differ only in how a link is spelled:
    `Option<Box<Node<T>>>` in one, `More(Box<Node<T>>) | Empty` in the
    other. This module maps one representation onto the other node by node
    and shows that `new`, `push` and `pop` correspond, so any run
    of pushes and pops observes the same results on both. */
module StackEquivalence {
  import opened Options
  import Ok = OkStack
  import Bad = BadStack

  /** `More(n)` is `Some(n)` and `Empty` is `None`, all along the chain. */
  function ToOkLink<T>(link: Bad.Link<T>): (r: Ok.Link<T>)
    ensures Ok.Elems(r) == Bad.Elems(link)
  {
    match link
    case Empty => None
    case More(n) => Some(Ok.Node(n.val, ToOkLink(n.next)))
  }

  /** `Some(n)` is `More(n)` and `None` is `Empty`, all along the chain. */
  function ToBadLink<T>(link: Ok.Link<T>): (r: Bad.Link<T>)
    ensures Bad.Elems(r) == Ok.Elems(link)
  {
    match link
    case None => Bad.Empty
    case Some(n) => Bad.More(Bad.Node(n.val, ToBadLink(n.next)))
  }

  /** Mapping an enum-linked chain across and back gives it back. */
  lemma {:induction false} BadRoundTrip<T>(link: Bad.Link<T>)
    ensures ToBadLink(ToOkLink(link)) == link
  {
    match link
    case Empty =>
    case More(n) => BadRoundTrip(n.next);
  }

  /** Mapping an option-linked chain across and back gives it back. */
  lemma {:induction false} OkRoundTrip<T>(link: Ok.Link<T>)
    ensures ToOkLink(ToBadLink(link)) == link
  {
    match link
    case None =>
    case Some(n) => OkRoundTrip(n.next);
  }

  /** An enum-linked list, seen as an option-linked one. */
  function ToOk<T>(l: Bad.List<T>): Ok.List<T>
  {
    Ok.List(ToOkLink(l.head))
  }

  /** Both `new`s build the empty chain. */
  lemma NewCorresponds<T>()
    ensures ToOk(Bad.New<T>()) == Ok.New<T>()
  {
  }

  /** `push` builds corresponding chains. */
  lemma PushCorresponds<T>(l: Bad.List<T>, val: T)
    ensures ToOk(Bad.Push(l, val)) == Ok.Push(ToOk(l), val)
  {
  }

  /** `pop` (through `pop_node`) and `pop` (through `take`) return the same
      value and leave corresponding chains. */
  lemma PopCorresponds<T>(l: Bad.List<T>)
    ensures Bad.Pop(l).1 == Ok.Pop(ToOk(l)).1
    ensures ToOk(Bad.Pop(l).0) == Ok.Pop(ToOk(l)).0
  {
  }

  /** One call a caller can make on either stack. */
  datatype Op<T> = PushOp(val: T) | PopOp

  /** Runs `ops` on an option-linked list, collecting what each `pop` returns. */
  function RunOk<T>(l: Ok.List<T>, ops: seq<Op<T>>): (Ok.List<T>, seq<Option<T>>)
    decreases |ops|
  {
    if ops == [] then (l, [])
    else
      match ops[0]
      case PushOp(v) => RunOk(Ok.Push(l, v), ops[1..])
      case PopOp =>
        var (rest, val) := Ok.Pop(l);
        var (final, vals) := RunOk(rest, ops[1..]);
        (final, [val] + vals)
  }

  /** Runs `ops` on an enum-linked list, collecting what each `pop` returns. */
  function RunBad<T>(l: Bad.List<T>, ops: seq<Op<T>>): (Bad.List<T>, seq<Option<T>>)
    decreases |ops|
  {
    if ops == [] then (l, [])
    else
      match ops[0]
      case PushOp(v) => RunBad(Bad.Push(l, v), ops[1..])
      case PopOp =>
        var (rest, val) := Bad.Pop(l);
        var (final, vals) := RunBad(rest, ops[1..]);
        (final, [val] + vals)
  }

  /** From corresponding lists, any run of pushes and pops returns the same
      values and ends on corresponding lists. */
  lemma {:induction false} RunsCorrespond<T>(l: Bad.List<T>, ops: seq<Op<T>>)
    ensures RunBad(l, ops).1 == RunOk(ToOk(l), ops).1
    ensures ToOk(RunBad(l, ops).0) == RunOk(ToOk(l), ops).0
    decreases |ops|
  {
    if ops != [] {
      match ops[0]
      case PushOp(v) =>
        PushCorresponds(l, v);
        RunsCorrespond(Bad.Push(l, v), ops[1..]);
      case PopOp =>
        PopCorresponds(l);
        RunsCorrespond(Bad.Pop(l).0, ops[1..]);
    }
  }

  /** Starting from `new`, the two stacks cannot be told apart by pushes and
      pops. */
  lemma SameObservations<T>(ops: seq<Op<T>>)
    ensures RunBad(Bad.New(), ops).1 == RunOk(Ok.New(), ops).1
  {
    NewCorresponds<T>();
    RunsCorrespond(Bad.New<T>(), ops);
  }
}
