/** What several parts of the driver's model share. */
module Common {
  datatype Option<T> = None | Some(value: T)

  const MAX_MEMBERS: nat := 8     // RC_VOLUME_MAX_MEMBERS

  function Least(a: nat, b: nat): nat { if a < b then a else b }

  function Larger(a: nat, b: nat): nat { if a < b then b else a }

  /** The numbers below n: BIT(n) - 1 as a set of members. */
  function Upto(n: nat): (s: set<nat>)
    ensures |s| == n && forall m: nat :: m in s <==> m < n
  {
    if n == 0 then {} else Upto(n - 1) + {n - 1}
  }
}
