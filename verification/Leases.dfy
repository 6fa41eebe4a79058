/** Vocabulary shared by the lease modules: lease states (`internal/refsworkspace/types.go`) and `Option`. */
module Leases {
  type LeaseId = string

  datatype Option<+T> = None | Some(value: T)

  datatype LeaseState = Requested | Cloning | Ready | Running | Releasing | Quarantined | Released | Unknown

  /** Position of a state in the life of a lease. */
  function Rank(s: LeaseState): nat {
    match s
    case Unknown => 0
    case Requested => 1
    case Cloning => 2
    case Ready => 3
    case Running => 4
    case Releasing => 5
    case Quarantined => 6
    case Released => 7
  }
}
