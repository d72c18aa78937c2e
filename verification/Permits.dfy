/**
 Starts on the game's shared interactive key: collection, verification and live clan reads take
 permits from one table, under the key's row lock.

 A live clan read takes a permit of collection's, after checking that collection's share of the
 last second is less than half used.
 */
module Permits {
  import opened Basics
  import opened Windows

  /** Who took a permit; a live read's row says collector. */
  const COLLECTOR: int := 0
  const PYTHON: int := 1
  const LIVE: int := 2

  function RowsOf(caller: int): set<int> { if caller == PYTHON then {PYTHON} else {COLLECTOR, LIVE} }

  const EVERYONE: set<int> := {COLLECTOR, PYTHON, LIVE}
  const KEEP: int := 10 * MINUTE

  /** The key's row: how many starts each lane has in any second, and whether it may be used. */
  datatype Key = Key(collector: nat, python: nat)

  function Budget(key: Key, caller: int): nat { if caller == PYTHON then key.python else key.collector }

  /** `granted` lists every permit ever taken, in order; `rows` are those the table still holds. */
  datatype State = State(granted: seq<Entry>, rows: set<nat>, clock: int)

  datatype Step =
    | Clean(batch: set<nat>, at: int)
    | Acquire(caller: int, at: int, active: bool)
    | LiveRead(counted: int, at: int, active: bool)

  /** The rows a count of the last second before `at` finds. */
  function Used(st: State, who: set<int>, at: int): set<nat> {
    set i | i in st.rows && i < |st.granted| && st.granted[i].who in who && st.granted[i].at > at - SECOND
  }

  predicate Enabled(st: State, step: Step) {
    match step
    case Clean(batch, at) => st.clock <= at && forall i :: i in batch ==>
        i < |st.granted| && st.granted[i].at < at - KEEP
    case Acquire(caller, at, _) => st.clock <= at && (caller == COLLECTOR || caller == PYTHON)
    case LiveRead(counted, at, _) => st.clock <= counted <= at
  }

  /** The database's permit function, `who` being the caller that asks through it. */
  function Taken(st: State, key: Key, who: int, at: int, active: bool): State {
    if active && |Used(st, RowsOf(who), at)| < Budget(key, who) && |Used(st, EVERYONE, at)| < key.collector + key.python
    then State(st.granted + [Entry(who, at)], st.rows + {|st.granted|}, at)
    else st.(clock := at)
  }

  function Next(st: State, key: Key, step: Step): State
    requires Enabled(st, step)
  {
    match step
    case Clean(batch, at) => st.(rows := st.rows - batch, clock := at)
    case Acquire(caller, at, active) => Taken(st, key, caller, at, active)
    case LiveRead(counted, at, active) =>
      if 2 * (|Used(st, RowsOf(LIVE), counted)| + 1) > key.collector then st.(clock := at)
      else Taken(st, key, LIVE, at, active)
  }

  /** Cleaning deletes the rows of its batch, all of them older than ten minutes, and changes no later count. */
  lemma CleanedExactly(st: State, key: Key, batch: set<nat>, at: int, who: set<int>, later: int)
    requires Enabled(st, Clean(batch, at)) && at <= later
    ensures var n := Next(st, key, Clean(batch, at));
      && n.granted == st.granted && (forall i :: i in n.rows <==> i in st.rows && i !in batch)
      && (forall i :: i in batch ==> i < |st.granted| && st.granted[i].at < at - 10 * MINUTE)
      && Used(n, who, later) == Used(st, who, later)
  {
    var n := Next(st, key, Clean(batch, at));
    forall i ensures i in Used(n, who, later) <==> i in Used(st, who, later) {}
  }

  // ----- What every reachable state keeps -----

  /** A row is deleted only once it is too old for any count. */
  ghost predicate RowsKept(st: State) {
    && (forall i: nat :: i < |st.granted| ==> st.granted[i].at <= st.clock && st.granted[i].who in EVERYONE)
    && (forall i: nat :: i < |st.granted| && st.granted[i].at >= st.clock - KEEP ==> i in st.rows)
  }

  ghost predicate GrantWell(log: seq<Entry>, key: Key, i: nat)
    requires i < |log|
  {
    && Admitted(log, i, RowsOf(log[i].who), Budget(key, log[i].who), SECOND)
    && Admitted(log, i, EVERYONE, key.collector + key.python, SECOND)
    && (log[i].who == LIVE ==> Admitted(log, i, RowsOf(LIVE), key.collector / 2, SECOND))
  }

  ghost predicate Inv(st: State, key: Key) {
    RowsKept(st) && forall i: nat :: i < |st.granted| ==> GrantWell(st.granted, key, i)
  }

  /** Deleted rows never miss from a count. */
  lemma CountsMissNothing(st: State, who: set<int>, at: int)
    requires RowsKept(st) && st.clock <= at
    ensures Used(st, who, at) == Since(st.granted, |st.granted|, who, at - SECOND)
  {}

  lemma TakenKeepsInv(st: State, key: Key, who: int, at: int, active: bool)
    requires Inv(st, key) && st.clock <= at && who in EVERYONE
    requires who == LIVE ==> 2 * (|Since(st.granted, |st.granted|, RowsOf(LIVE), at - SECOND)| + 1) <= key.collector
    ensures Inv(Taken(st, key, who, at, active), key)
  {
    var n := Taken(st, key, who, at, active);
    if n.granted != st.granted {
      var log, more := st.granted, Entry(who, at);
      CountsMissNothing(st, RowsOf(who), at);
      CountsMissNothing(st, EVERYONE, at);
      forall i: nat | i < |log| + 1 ensures GrantWell(n.granted, key, i) {
        if i < |log| {
          assert GrantWell(st.granted, key, i);
          AppendKeeps(log, more, i, RowsOf(log[i].who), Budget(key, log[i].who), SECOND);
          AppendKeeps(log, more, i, EVERYONE, key.collector + key.python, SECOND);
          AppendKeeps(log, more, i, RowsOf(LIVE), key.collector / 2, SECOND);
        } else {
          assert Since(n.granted, i, RowsOf(who), at - SECOND) == Since(log, i, RowsOf(who), at - SECOND);
          assert Since(n.granted, i, EVERYONE, at - SECOND) == Since(log, i, EVERYONE, at - SECOND);
        }
      }
    }
  }

  lemma StepKeepsInv(st: State, key: Key, step: Step)
    requires Inv(st, key) && Enabled(st, step)
    ensures Inv(Next(st, key, step), key)
  {
    match step
    case Clean(batch, at) =>
    case Acquire(caller, at, active) => TakenKeepsInv(st, key, caller, at, active);
    case LiveRead(counted, at, active) =>
      CountsMissNothing(st, RowsOf(LIVE), counted);
      SinceShrinks(st.granted, |st.granted|, RowsOf(LIVE), counted - SECOND, at - SECOND);
      if 2 * (|Used(st, RowsOf(LIVE), counted)| + 1) <= key.collector {
        TakenKeepsInv(st, key, LIVE, at, active);
      }
  }

  // ----- Whole runs -----

  ghost predicate Run(key: Key, states: seq<State>, steps: seq<Step>) {
    && |states| == |steps| + 1 && states[0].granted == [] && states[0].rows == {}
    && forall i :: 0 <= i < |steps| ==> Enabled(states[i], steps[i]) && states[i + 1] == Next(states[i], key, steps[i])
  }

  lemma {:induction false} RunKeepsInv(key: Key, states: seq<State>, steps: seq<Step>, i: nat)
    requires Run(key, states, steps) && i < |states|
    ensures Inv(states[i], key)
  {
    if i > 0 {
      RunKeepsInv(key, states, steps, i - 1);
      StepKeepsInv(states[i - 1], key, steps[i - 1]);
    }
  }

  /** Live clan reads take at most half of collection's budget in any one second of any run. */
  lemma LiveReadsTakeAtMostHalf(key: Key, states: seq<State>, steps: seq<Step>, i: nat, from: int)
    requires Run(key, states, steps) && i < |states|
    ensures var log := states[i].granted; 2 * |During(log, |log|, {LIVE}, from, SECOND)| <= key.collector
  {
    RunKeepsInv(key, states, steps, i);
    var log := states[i].granted;
    forall k: nat | k < |log| && log[k].who in {LIVE}
      ensures Admitted(log, k, RowsOf(LIVE), key.collector / 2, SECOND)
    {
      assert GrantWell(log, key, k);
    }
    EveryWindowIsBounded(log, |log|, {LIVE}, RowsOf(LIVE), key.collector / 2, SECOND, from);
  }

  /**
   Each lane keeps its own budget in every second, live reads being part of collection's:
   verification's starts are never touched.
   */
  lemma LanesKeepTheirBudgets(key: Key, states: seq<State>, steps: seq<Step>, i: nat, from: int, caller: int)
    requires Run(key, states, steps) && i < |states|
    ensures var log := states[i].granted; |During(log, |log|, RowsOf(caller), from, SECOND)| <= Budget(key, caller)
  {
    RunKeepsInv(key, states, steps, i);
    var log := states[i].granted;
    forall k: nat | k < |log| && log[k].who in RowsOf(caller)
      ensures Admitted(log, k, RowsOf(caller), Budget(key, caller), SECOND)
    {
      assert GrantWell(log, key, k);
    }
    EveryWindowIsBounded(log, |log|, RowsOf(caller), RowsOf(caller), Budget(key, caller), SECOND, from);
  }

  /**
   With the key active and verification's lane free, a verification start is granted whatever
   collection and live reads took.
   */
  lemma VerificationStartIsNeverTouched(key: Key, states: seq<State>, steps: seq<Step>, i: nat, at: int)
    requires Run(key, states, steps) && i < |states| && states[i].clock <= at
    requires |Used(states[i], RowsOf(PYTHON), at)| < key.python
    ensures Enabled(states[i], Acquire(PYTHON, at, true))
    ensures Next(states[i], key, Acquire(PYTHON, at, true)).granted == states[i].granted + [Entry(PYTHON, at)]
  {
    RunKeepsInv(key, states, steps, i);
    LanesKeepTheirBudgets(key, states, steps, i, at - SECOND + 1, COLLECTOR);
    LanesAddUp(states[i], at);
  }

  /** In the last second there are no more permits than of collection's lane and of verification's. */
  lemma LanesAddUp(st: State, at: int)
    requires RowsKept(st) && st.clock <= at
    ensures |Used(st, EVERYONE, at)|
      <= |During(st.granted, |st.granted|, RowsOf(COLLECTOR), at - SECOND + 1, SECOND)| + |Used(st, RowsOf(PYTHON), at)|
  {
    CoveredCount(Used(st, EVERYONE, at), During(st.granted, |st.granted|, RowsOf(COLLECTOR), at - SECOND + 1, SECOND),
                 Used(st, RowsOf(PYTHON), at));
  }

  /** Starts ever granted to a lane in the second before, whether or not their rows are still there. */
  function LaneUsed(st: State, caller: int, at: int): nat {
    var lane := if caller == PYTHON then {PYTHON} else {COLLECTOR, LIVE};
    |During(st.granted, |st.granted|, lane, at - SECOND + 1, SECOND)|
  }

  lemma LaneCounted(st: State, caller: int, at: int)
    requires RowsKept(st) && st.clock <= at
    ensures |Used(st, RowsOf(caller), at)| == LaneUsed(st, caller, at)
  {
    assert Used(st, RowsOf(caller), at) == During(st.granted, |st.granted|, RowsOf(caller), at - SECOND + 1, SECOND);
  }

  /** With room in its own lane, a start finds room in the whole. */
  lemma RoomInLaneIsRoom(key: Key, states: seq<State>, steps: seq<Step>, i: nat, caller: int, at: int)
    requires Run(key, states, steps) && i < |states| && states[i].clock <= at
    requires |Used(states[i], RowsOf(caller), at)| < Budget(key, caller)
    ensures |Used(states[i], EVERYONE, at)| < key.collector + key.python
  {
    RunKeepsInv(key, states, steps, i);
    LanesKeepTheirBudgets(key, states, steps, i, at - SECOND + 1, COLLECTOR);
    LanesKeepTheirBudgets(key, states, steps, i, at - SECOND + 1, PYTHON);
    LanesAddUp(states[i], at);
    LaneCounted(states[i], caller, at);
    LaneCounted(states[i], PYTHON, at);
  }

  /** A start is granted exactly with the key active and room in its lane, whatever the other lane took. */
  lemma GrantedExactly(key: Key, states: seq<State>, steps: seq<Step>, i: nat)
    requires Run(key, states, steps) && i < |steps| && steps[i].Acquire?
    ensures states[i + 1].granted ==
      if steps[i].active && LaneUsed(states[i], steps[i].caller, steps[i].at)
           < (if steps[i].caller == PYTHON then key.python else key.collector)
      then states[i].granted + [Entry(steps[i].caller, steps[i].at)] else states[i].granted
  {
    RunKeepsInv(key, states, steps, i);
    LaneCounted(states[i], steps[i].caller, steps[i].at);
    if |Used(states[i], RowsOf(steps[i].caller), steps[i].at)| < Budget(key, steps[i].caller) {
      RoomInLaneIsRoom(key, states, steps, i, steps[i].caller, steps[i].at);
    }
  }

  /**
   A live read is granted exactly when collection's lane, counted first, would be at most half used
   with it, and the key is active with room in that lane when it takes the permit.
   */
  lemma LiveReadGrantedExactly(key: Key, states: seq<State>, steps: seq<Step>, i: nat)
    requires Run(key, states, steps) && i < |steps| && steps[i].LiveRead?
    ensures states[i + 1].granted ==
      if 2 * (LaneUsed(states[i], LIVE, steps[i].counted) + 1) <= key.collector
         && steps[i].active && LaneUsed(states[i], LIVE, steps[i].at) < key.collector
      then states[i].granted + [Entry(LIVE, steps[i].at)] else states[i].granted
  {
    RunKeepsInv(key, states, steps, i);
    LaneCounted(states[i], LIVE, steps[i].counted);
    LaneCounted(states[i], LIVE, steps[i].at);
    if |Used(states[i], RowsOf(LIVE), steps[i].at)| < Budget(key, LIVE) {
      RoomInLaneIsRoom(key, states, steps, i, LIVE, steps[i].at);
    }
  }

  // ----- The calls, on the table's own rows -----

  class PermitTable {
    const key: Option<Key>
    var granted: seq<Entry>
    var rows: set<nat>
    var clock: int

    function Value(): State
      reads this
    {
      State(granted, rows, clock)
    }

    constructor (key: Option<Key>)
      ensures this.key == key && granted == [] && rows == {}
    {
      this.key, granted, rows := key, [], {};
    }

    /** The permit function for a registered key. */
    method Acquire(caller: int, at: int, active: bool) returns (ok: bool)
      requires key.Some?
      modifies this
      ensures Value() == Taken(old(Value()), key.value, caller, at, active)
      ensures ok <==> granted == old(granted) + [Entry(caller, at)]
      ensures !ok ==> granted == old(granted)
    {
      ok := false;
      if active {
        var mine, all := |Used(Value(), RowsOf(caller), at)|, |Used(Value(), EVERYONE, at)|;
        if mine < Budget(key.value, caller) && all < key.value.collector + key.value.python {
          ok := true;
          rows := rows + {|granted|};
          granted := granted + [Entry(caller, at)];
        }
      }
      clock := at;
    }

    /** acquire_live_read_permit: None with the start taken, otherwise why none was taken. */
    method AcquireLive(counted: int, at: int, active: bool) returns (refused: Option<string>)
      requires clock <= counted <= at
      modifies this
      ensures refused == Some("key_not_registered") <==> key.None?
      ensures key.None? ==> Value() == old(Value())
      ensures key.Some? ==> Value() == Next(old(Value()), key.value, LiveRead(counted, at, active))
      ensures refused == Some("cap")
        <==> key.Some? && 2 * (|Used(old(Value()), {COLLECTOR, LIVE}, counted)| + 1) > key.value.collector
      ensures refused.None? <==> granted == old(granted) + [Entry(LIVE, at)]
      ensures refused.Some? ==> granted == old(granted)
    {
      if key.None? {
        return Some("key_not_registered");
      }
      var used := |Used(Value(), RowsOf(LIVE), counted)|;
      if 2 * (used + 1) > key.value.collector {
        clock := at;
        return Some("cap");
      }
      var ok := Acquire(LIVE, at, active);
      refused := if ok then None else Some("key_not_ready");
    }
  }
}
