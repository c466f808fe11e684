/** Types shared by every module of the model. */
module Prelude {
  datatype Option<+T> = None | Some(value: T)

  /** UUIDs, digests and instants are only compared, so numbers stand for them. */
  type Uuid = nat
  type Digest = nat

  /** Milliseconds since the epoch, as `Date.now()` reads them. */
  type Time = int

  lemma NoElementIsEmpty<T>(s: set<T>)
    requires forall t :: t !in s
    ensures s == {}
  {
  }
}
