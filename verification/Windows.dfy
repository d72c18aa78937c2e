/** Sliding windows over a log of stamped entries. */
module Windows {
  import opened Basics

  datatype Entry = Entry(who: int, at: int)

  /** The entries of `who`, among the first n, later than `after`. */
  function Since(log: seq<Entry>, n: nat, who: set<int>, after: int): set<nat>
    requires n <= |log|
  {
    set i: nat | i < n && log[i].who in who && log[i].at > after
  }

  /** The entries of `who`, among the first n, in the window of length `span` that starts at `from`. */
  function During(log: seq<Entry>, n: nat, who: set<int>, from: int, span: int): set<nat>
    requires n <= |log|
  {
    set i: nat | i < n && log[i].who in who && from <= log[i].at < from + span
  }

  /** When entry i was added, it and those of `counted` in the span before it were at most the limit. */
  predicate Admitted(log: seq<Entry>, i: nat, counted: set<int>, limit: int, span: int)
    requires i < |log|
  {
    |Since(log, i, counted, log[i].at - span)| + 1 <= limit
  }

  /** Checking each entry against the span before it bounds every window of that length. */
  lemma {:induction false} EveryWindowIsBounded(
    log: seq<Entry>, n: nat, who: set<int>, counted: set<int>, limit: nat, span: int, from: int)
    requires n <= |log| && who <= counted
    requires forall i: nat :: i < n && log[i].who in who ==> Admitted(log, i, counted, limit, span)
    ensures |During(log, n, who, from, span)| <= limit
    decreases n
  {
    if n == 0 {
      assert During(log, n, who, from, span) == {};
    } else if n - 1 in During(log, n, who, from, span) {
      var before := Since(log, n - 1, counted, log[n - 1].at - span);
      assert Admitted(log, n - 1, counted, limit, span);
      SubsetCount(During(log, n, who, from, span), before + {n - 1});
    } else {
      assert During(log, n, who, from, span) == During(log, n - 1, who, from, span);
      EveryWindowIsBounded(log, n - 1, who, counted, limit, span, from);
    }
  }

  lemma SinceShrinks(log: seq<Entry>, n: nat, who: set<int>, after: int, later: int)
    requires n <= |log| && after <= later
    ensures Since(log, n, who, later) <= Since(log, n, who, after)
    ensures |Since(log, n, who, later)| <= |Since(log, n, who, after)|
  {
    SubsetCount(Since(log, n, who, later), Since(log, n, who, after));
  }

  /** Adding an entry changes nothing about those before it. */
  lemma AppendKeeps(log: seq<Entry>, more: Entry, i: nat, counted: set<int>, limit: int, span: int)
    requires i < |log|
    ensures Admitted(log + [more], i, counted, limit, span) == Admitted(log, i, counted, limit, span)
  {
    assert Since(log + [more], i, counted, log[i].at - span) == Since(log, i, counted, log[i].at - span);
  }
}
