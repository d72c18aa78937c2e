/** Small shared vocabulary: optional values and the unit of time. */
module Basics {

  /** A value that may be absent: a nullable column, a dictionary miss, an unset field. */
  datatype Option<+T> = None | Some(value: T) {
    function GetOr(default: T): T {
      match this
      case Some(v) => v
      case None => default
    }
  }

  /** All clocks count whole microseconds, the resolution of the database's timestamps. */
  const SECOND: int := 1_000_000
  const MINUTE: int := 60 * SECOND
  const DAY: int := 86_400 * SECOND

  function Min(a: int, b: int): int { if a <= b then a else b }

  function Max(a: int, b: int): int { if a >= b then a else b }

  function Lookup<K, V>(m: map<K, V>, k: K): Option<V> { if k in m then Some(m[k]) else None }

  lemma Pick<T>(s: set<T>) returns (x: T)
    requires s != {}
    ensures x in s
  {
    x :| x in s;
  }

  lemma SubsetCount<T>(small: set<T>, big: set<T>)
    requires small <= big
    ensures |small| <= |big|
  {
    assert big == small + (big - small);
  }

  lemma CoveredCount<T>(all: set<T>, some: set<T>, others: set<T>)
    requires forall x :: x in all ==> x in some || x in others
    ensures |all| <= |some| + |others|
  {
    SubsetCount(all, some + others);
    assert some + others == some + (others - some);
    SubsetCount(others - some, others);
  }

  lemma {:induction false} UpperBound(s: set<int>) returns (bound: int)
    ensures forall x :: x in s ==> x < bound
    decreases |s|
  {
    bound := 0;
    if s != {} {
      var x := Pick(s);
      var rest := UpperBound(s - {x});
      bound := Max(rest, x + 1);
      forall y | y in s ensures y < bound { assert y == x || y in s - {x}; }
    }
  }

  lemma Unused(s: set<int>) returns (x: int)
    ensures x !in s
  {
    x := UpperBound(s);
  }
}
