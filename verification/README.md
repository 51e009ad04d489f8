# Singly-linked stacks, three ways

A Dafny model of three singly-linked LIFO stacks written in Rust, each with
its own ownership discipline over the same chain of nodes:

- `src/ok_stack.rs`: an exclusively owned stack with an `Option<Box<Node>>`
  link. It has `new`, `push`, `pop`, `peek`, `peek_mut`, a consuming
  iterator (`into_iter`, each step a `pop`), a borrowing iterator (`iter`)
  and a hand-written iterative `Drop`. Module `OkStack`.
- `src/bad_stack.rs`: the same stack, with the link spelled as an explicit
  enum `More(Box<Node>) | Empty`. `pop_node` detaches one node, and both
  `pop` and the iterative `Drop` are built on it. Module `BadStack`.
- `src/persistent_singly_linked_stack.rs`: an immutable stack with an
  `Option<Rc<Node>>` link. `prepend` and `tail` return new lists that share
  the receiver's nodes. It also has `head` and a borrowing iterator. Module
  `PersistentStack`.

Every chain is an inductive datatype. The abstraction function `Elems`
maps a chain to `seq<T>`, top first, and `Contents` maps a list to the
sequence of its head. Each operation's contract is stated against that
sequence. Where the Rust code moves or shares a chain instead of copying
it, the contract also states that the resulting link equals the original
one. Sharing is modelled as equality, so an equal copy would satisfy the
same contract (see Left out).

Modelling choices:

- A `&mut self` operation is a pure function from the list before the call
  to the list after it. It returns the call's result alongside.
- `peek_mut` is modelled together with the write a caller makes through the
  reference it returns. `PeekMut(l, update)` returns the updated list and
  the value behind the reference.
- The borrowing iterators are cursors onto the next node. `CollectIter` and
  `CollectIntoIter` call `next` until it yields `None`.
- Each teardown loop is a method. It returns the emptied list, the values
  freed in the order they were freed, and the number of iterations, which
  is exactly `|Contents(l)|`. Its `decreases` clause is the length of the
  chain still to free.
- `Box` and `Rc` are the node value itself. Sharing by `Rc` becomes equality
  of links. For example, `Tail(Prepend(l, v)) == l` holds as an equality of
  whole lists.
- Module `StackEquivalence` maps enum-linked chains to option-linked chains
  and back. It shows that `new`, `push` and `pop` correspond, so any run of
  pushes and pops returns the same values on both stacks.

The two teardown loops differ. The `Drop` in `src/ok_stack.rs:70-77`
does not go through `pop`; it takes `next` out of each node in turn. The
`Drop` in `src/bad_stack.rs:99-101` loops over `pop_node`. Each model
follows its own file.

## Model

| member | source | states |
|---|---|---|
| `OkStack.Chain` | src/ok_stack.rs:5-12 | every sequence of values is the contents of some chain of nodes |
| `OkStack.ChainOfElems` | src/ok_stack.rs:5-12 | a chain is determined by its values: rebuilding it from its contents gives the same chain |
| `OkStack.ContentsDetermine` | src/ok_stack.rs:1-12 | two lists with the same contents are equal as the derived `PartialEq` compares them, so every contract stated through the contents fixes the list exactly |
| `OkStack.New` | src/ok_stack.rs:22-26 | a new list stands for the empty stack |
| `OkStack.Push` | src/ok_stack.rs:29-37 | push puts the value on top of the old contents; the new node's `next` equals the old chain |
| `OkStack.Pop` | src/ok_stack.rs:40-45 | on an empty list pop returns `None` and the list stays empty; otherwise it returns the top value, and the new head equals the old top node's `next` |
| `OkStack.Peek` | src/ok_stack.rs:48-50 | peek is `None` exactly when the list is empty, and otherwise the top value |
| `OkStack.PeekMut` | src/ok_stack.rs:53-55 | on an empty list no reference is handed out and the list is unchanged; otherwise the write replaces only the top value, the reference shows the written value and the rest of the chain is untouched |
| `OkStack.PeekAfterPeekMut` | src/ok_stack.rs:160-169 | after a write through `peek_mut`, `peek` shows the written value |
| `OkStack.IntoIterOf` | src/ok_stack.rs:57-59 | the consuming iterator owns exactly the list it was given |
| `OkStack.IntoIterNext` | src/ok_stack.rs:81-88 | each step of the consuming iterator yields the top value and keeps the old top node's `next` as what remains, or yields `None` when nothing remains |
| `OkStack.CollectIntoIter` | src/ok_stack.rs:57-88 | draining the consuming iterator until `None` yields exactly the contents, top to bottom |
| `OkStack.IterOf` | src/ok_stack.rs:61-63 | the borrowing iterator starts on the chain of the list's head |
| `OkStack.IterNext` | src/ok_stack.rs:90-98 | each step of the borrowing iterator yields the value under the cursor and moves to that node's `next`; past the end it yields `None` and stays put |
| `OkStack.CollectIter` | src/ok_stack.rs:183-195 | reading the list through `iter` until `None` yields exactly the contents, top to bottom |
| `OkStack.Drop` | src/ok_stack.rs:68-78 | the teardown loop ends with head `None`, having freed every value once, top to bottom, in exactly as many iterations as there were values |
| `OkStack.PushAllContents` | src/ok_stack.rs:29-37 | pushing a sequence of values leaves them on top in reverse order, above the old contents |
| `OkStack.PopNYields` | src/ok_stack.rs:40-45 | `n` pops yield the contents top first, then `None` for every pop past the bottom |
| `OkStack.PushPop` | src/ok_stack.rs:121-127 | push then pop returns the pushed value and restores the list exactly |
| `OkStack.Lifo` | src/ok_stack.rs:130-141 | after pushing any values onto a new list, popping yields them in reverse order and then `None` |
| `OkStack.LifoOneTwoThree` | src/ok_stack.rs:130-141 | pushing 1, 2, 3 and popping four times yields 3, 2, 1, `None` |
| `BadStack.New` | src/bad_stack.rs:26-30 | a new list, with head `Empty`, stands for the empty stack |
| `BadStack.Push` | src/bad_stack.rs:33-40 | push puts the value on top of the old contents; the old chain becomes the new node's `next` |
| `BadStack.PopNode` | src/bad_stack.rs:65-76 | on `Empty` it returns `Empty` and the head stays `Empty`; otherwise the list keeps the old node's `next` chain, and the detached node holds exactly the top value with an `Empty` link |
| `BadStack.Pop` | src/bad_stack.rs:58-63 | pop returns `None` on an empty list and otherwise the value of the node `pop_node` detached, and the new head equals the old top node's `next` |
| `BadStack.Drop` | src/bad_stack.rs:99-101 | the loop over `pop_node` ends with head `Empty`, having freed every value once, top to bottom, in exactly as many iterations as there were values |
| `BadStack.PushAllContents` | src/bad_stack.rs:33-40 | pushing a sequence of values leaves them on top in reverse order, above the old contents |
| `BadStack.PopNYields` | src/bad_stack.rs:58-76 | `n` pops yield the contents top first, then `None` for every pop past the bottom |
| `BadStack.PushPop` | src/bad_stack.rs:124-130 | push then pop returns the pushed value and restores the list exactly |
| `BadStack.Lifo` | src/bad_stack.rs:133-144 | after pushing any values onto a new list, popping yields them in reverse order and then `None` |
| `BadStack.LifoOneTwoThree` | src/bad_stack.rs:133-144 | pushing 1, 2, 3 and popping four times yields 3, 2, 1, `None` |
| `PersistentStack.New` | src/persistent_singly_linked_stack.rs:19-21 | a new list stands for the empty stack |
| `PersistentStack.Prepend` | src/persistent_singly_linked_stack.rs:24-32 | prepend returns a list with the value on top of the receiver's contents, whose second link is the receiver's own head |
| `PersistentStack.Tail` | src/persistent_singly_linked_stack.rs:35-39 | the tail of an empty list is empty; otherwise it drops exactly the top value, and its head is the receiver's second link |
| `PersistentStack.Head` | src/persistent_singly_linked_stack.rs:42-44 | head is `None` exactly when the list is empty, and otherwise the top value |
| `PersistentStack.IterOf` | src/persistent_singly_linked_stack.rs:47-51 | the iterator starts on the chain of the list's head |
| `PersistentStack.IterNext` | src/persistent_singly_linked_stack.rs:57-62 | each step yields the value under the cursor and moves to that node's `next`; past the end it yields `None` and stays put |
| `PersistentStack.CollectIter` | src/persistent_singly_linked_stack.rs:84-92 | reading the list through `iter` until `None` yields exactly the contents, top to bottom |
| `PersistentStack.TailOfPrepend` | src/persistent_singly_linked_stack.rs:76-77 | the tail of a prepend is the very list prepended to |
| `PersistentStack.PrependAllContents` | src/persistent_singly_linked_stack.rs:24-32 | prepending a sequence of values leaves them on top in reverse order, above the old contents |
| `PersistentStack.PrependAllSnoc` | src/persistent_singly_linked_stack.rs:24-32 | prepending values one at a time composes: prepending `init + [last]` is prepending `init`, then `last` |
| `PersistentStack.TailNPrependAll` | src/persistent_singly_linked_stack.rs:27 | `k` tails of a list built by prepending `vals` is the list built by prepending all but the last `k` values |
| `PersistentStack.SharedSuffix` | src/persistent_singly_linked_stack.rs:35-39 | one tail per prepended value gives back a list equal to the original one (sharing is equality, see Left out) |
| `PersistentStack.Lifo` | src/persistent_singly_linked_stack.rs:73-77 | reading head after each tail of a list built by prepending values yields them in reverse order, then `None` |
| `PersistentStack.Basics` | src/persistent_singly_linked_stack.rs:69-81 | a new list has no head; after prepending 1, 2, 3 the head is 3; prepending 4 and taking the tail gives head 3; the tail of a new list has no head |
| `StackEquivalence.ToOkLink` | src/bad_stack.rs:18-22 | the enum-linked chain maps to an option-linked chain with the same values |
| `StackEquivalence.ToBadLink` | src/ok_stack.rs:12 | the option-linked chain maps to an enum-linked chain with the same values |
| `StackEquivalence.BadRoundTrip` | src/bad_stack.rs:18-22 | mapping an enum-linked chain across and back gives the same chain |
| `StackEquivalence.OkRoundTrip` | src/ok_stack.rs:12 | mapping an option-linked chain across and back gives the same chain |
| `StackEquivalence.NewCorresponds` | src/bad_stack.rs:26-30 | the two `new`s build corresponding lists |
| `StackEquivalence.PushCorresponds` | src/bad_stack.rs:33-40 | the two `push`es build corresponding lists from corresponding lists |
| `StackEquivalence.PopCorresponds` | src/bad_stack.rs:58-76 | the two `pop`s return the same value and leave corresponding lists |
| `StackEquivalence.RunsCorrespond` | src/bad_stack.rs:119-144 | from corresponding lists, any sequence of pushes and pops returns the same values on both stacks and ends on corresponding lists |
| `StackEquivalence.SameObservations` | src/bad_stack.rs:119-144 | from `new`, no sequence of pushes and pops can tell the two stacks apart |

## Left out

- `src/null_optimization.rs` is not part of this model. It only prints `std::mem::size_of` values. The layout claim behind it, that the enum link takes no more space than `Option<Box<Node>>` (`src/bad_stack.rs:13-17`), is about memory layout and cannot be expressed in Dafny.
- `Box` allocation and freeing are not modelled, nor is the call-stack depth that the hand-written `Drop` loops avoid. The model covers the loops' termination, the values they free and their final empty state.
- `Rc` reference counts and the deferred freeing they drive are not modelled. Sharing is modelled as equality of immutable node values.
- Moving or sharing a chain instead of copying it is not distinguishable in a value model. Contracts such as those of `OkStack.Push`, `PersistentStack.Prepend`, `PersistentStack.Tail` and `PersistentStack.SharedSuffix` state that the links are equal, which an equal copy would also satisfy.
- Lifetimes and borrows (`&'a`, `&mut`) are not modelled. A borrowed value is the value itself. `peek_mut` is a replacement of the top value. The borrowing iterators are cursors over the chain.
- The commented-out alternative `pop` and `Drop` in `src/bad_stack.rs:44-54` and `src/bad_stack.rs:90-97` are not modelled.
- The derived `PartialEq`/`Debug` implementations are not modelled. Dafny's structural equality of datatypes plays the role of `PartialEq` in the contracts.
- Restartability of `iter` is not stated separately: iterators are pure values, so a fresh `IterOf(l)` always starts on the same head.
