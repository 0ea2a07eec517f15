/** `nil::service::ID`: which service owns a peer, which peer it is, and how it is printed. All three are compared. */
module Ids {
  datatype ID = ID(owner: nat, ref: nat, printer: nat)

  datatype Option<+T> = None | Some(value: T)
}
