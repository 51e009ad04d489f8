/** Rust's `Option<T>`: the result of every operation that may find nothing
    (an empty stack, an exhausted iterator), and the nullable link of the
    exclusive and persistent stacks. */
module Options {

  datatype Option<+T> = None | Some(value: T)
}
