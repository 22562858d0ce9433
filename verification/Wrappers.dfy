/** Option, the outcome of a computation that may panic, and the tail of a sequence. */
module Wrappers {

  datatype Option<+T> = None | Some(value: T) {
    function GetOr(default: T): T {
      match this
      case Some(v) => v
      case None => default
    }
  }

  datatype Outcome<+T> = Panicked | Returned(value: T)

  function LastOnes<T>(s: seq<T>, n: nat): seq<T> {
    if |s| > n then s[|s| - n..] else s
  }

  /** Keeping the last n after every append is keeping the last n of everything. */
  lemma LastOnesAppend<T>(s: seq<T>, x: T, n: nat)
    requires n > 0
    ensures LastOnes(LastOnes(s, n) + [x], n) == LastOnes(s + [x], n)
  {
  }
}
