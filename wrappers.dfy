/** Rust's `Option`, used for a lookup that may miss and for a bundle of
    ECS components that an entity may or may not carry. */
module Wrappers {
  datatype Option<T> = None | Some(value: T)
}
