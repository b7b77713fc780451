// Small value types shared by every component of the model.
module Common {
  datatype Option<+T> = None | Some(value: T)

  datatype Result<+T, +E> = Ok(value: T) | Err(error: E)

  function Max(a: int, b: int): int {
    if a < b then b else a
  }

  // The newest entries of a log, oldest of them first.
  function LastOf<T>(log: seq<T>, capacity: nat): (r: seq<T>)
    ensures |r| == if |log| < capacity then |log| else capacity
  {
    if |log| < capacity then log else log[|log| - capacity..]
  }

  lemma LastOfMore<T>(log: seq<T>, x: T, capacity: nat)
    requires capacity >= 1
    ensures var more := LastOf(log, capacity) + [x];
      LastOf(log + [x], capacity) == if |more| > capacity then more[1..] else more
  {
  }
}
