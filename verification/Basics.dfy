/** The few general-purpose definitions that several parts of the model share. */
module Basics {

  datatype Option<+T> = None | Some(value: T)

  datatype Result<+T> = Ok(value: T) | Err(error: string)

  lemma SubsetSize<T>(a: set<T>, b: set<T>)
    requires a <= b
    ensures |a| <= |b|
  {
    assert b == a + (b - a);
  }

  /** There is always a number that is not in use. */
  lemma FreshNumber(used: set<nat>) returns (n: nat)
    ensures n !in used
    ensures forall m :: m in used ==> m < n
  {
    if used == {} {
      n := 0;
    } else {
      var m :| m in used;
      n := FreshNumber(used - {m});
      assert forall k :: k in used ==> k == m || k in used - {m};
      n := if m < n then n else m + 1;
    }
  }
}
