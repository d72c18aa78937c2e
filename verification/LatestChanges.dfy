/**
 When each player's newest battle that moved their trophies ended, from the day's newest logs; the
 reports of logs read before are kept and not read again.
 */
module LatestChanges {
  import opened Basics

  const LOGS_A_READ: nat := 2000
  const REPORT_TO_END: int := 155 * SECOND

  datatype Report = Report(attack: bool, battle: int, at: int, moved: bool)

  /** One row of the saved battles; a published log's rows never change. */
  datatype Row = Row(log: int, report: Report)

  /** A player's newest log. */
  datatype Newest = Newest(player: int, log: int)

  /** A player has one newest log, and a log is one player's. */
  predicate Distinct(newest: seq<Newest>) {
    forall i, j :: 0 <= i < j < |newest| ==> newest[i].player != newest[j].player && newest[i].log != newest[j].log
  }

  predicate IsNewest(newest: seq<Newest>, log: int) { exists i :: 0 <= i < |newest| && newest[i].log == log }

  // ----- What the saved battles say -----

  function ReportsOf(table: seq<Row>, log: int): seq<Report> {
    if table == [] then []
    else
      var last := table[|table| - 1];
      ReportsOf(table[..|table| - 1], log) + if last.log == log then [last.report] else []
  }

  /** Reports kept from before are the table's. */
  ghost predicate True(table: seq<Row>, reports: map<int, seq<Report>>) {
    forall log :: log in reports ==> reports[log] == ReportsOf(table, log)
  }

  /** The time of a battle's last attack report among these. */
  function LastAttack(events: seq<Report>, battle: int): Option<int> {
    if events == [] then None
    else
      var last := events[|events| - 1];
      if last.attack && last.battle == battle then Some(last.at) else LastAttack(events[..|events| - 1], battle)
  }

  function OrElse(first: Option<int>, second: Option<int>): Option<int> { if first.Some? then first else second }

  /** The battle's attack time once the logs have been gone through in this order: a later one replaces an earlier. */
  function TimeIn(table: seq<Row>, order: seq<int>, battle: int): Option<int> {
    if order == [] then None
    else
      var last := order[|order| - 1];
      OrElse(LastAttack(ReportsOf(table, last), battle), TimeIn(table, order[..|order| - 1], battle))
  }

  /** When a report's battle ended: at the attacker's report, else 155 seconds after the defender's. */
  function EndOf(table: seq<Row>, order: seq<int>, r: Report): int {
    if r.attack then r.at else TimeIn(table, order, r.battle).GetOr(r.at + REPORT_TO_END)
  }

  /** The latest end among these reports that moved trophies; None without one. */
  ghost predicate IsLatest(table: seq<Row>, order: seq<int>, events: seq<Report>, latest: Option<int>) {
    && (latest.Some? ==>
         exists j :: 0 <= j < |events| && events[j].moved && EndOf(table, order, events[j]) == latest.value)
    && (forall j :: 0 <= j < |events| && events[j].moved ==>
          latest.Some? && EndOf(table, order, events[j]) <= latest.value)
  }

  lemma LatestIsDecided(table: seq<Row>, order: seq<int>, events: seq<Report>, a: Option<int>, b: Option<int>)
    requires IsLatest(table, order, events, a) && IsLatest(table, order, events, b)
    ensures a == b
  {}

  /** The newest logs that are among those kept, or are not, in their order. */
  function LogsIn(newest: seq<Newest>, kept: set<int>, wanted: bool): seq<int> {
    if newest == [] then []
    else
      var last := newest[|newest| - 1].log;
      LogsIn(newest[..|newest| - 1], kept, wanted) + if (last in kept) == wanted then [last] else []
  }

  /** The order the logs are gone through: those kept from before, then those read. */
  function Gone(newest: seq<Newest>, kept: set<int>): seq<int> {
    LogsIn(newest, kept, true) + LogsIn(newest, kept, false)
  }

  lemma {:induction false} LogsInHold(newest: seq<Newest>, kept: set<int>, wanted: bool, log: int)
    ensures log in LogsIn(newest, kept, wanted) <==> IsNewest(newest, log) && (log in kept) == wanted
  {
    if newest != [] {
      var before := newest[..|newest| - 1];
      LogsInHold(before, kept, wanted, log);
      assert forall i :: 0 <= i < |before| ==> before[i] == newest[i];
      assert IsNewest(newest, log) <==> IsNewest(before, log) || newest[|newest| - 1].log == log;
    }
  }

  lemma GoneHolds(newest: seq<Newest>, kept: set<int>, log: int)
    ensures log in Gone(newest, kept) <==> IsNewest(newest, log)
  {
    LogsInHold(newest, kept, true, log);
    LogsInHold(newest, kept, false, log);
  }

  /** The k-th of these is an attack report of the battle, and no later one is. */
  predicate IsLastAttack(events: seq<Report>, battle: int, k: nat)
    requires k < |events|
  {
    && events[k].attack && events[k].battle == battle
    && forall j :: k < j < |events| && events[j].attack ==> events[j].battle != battle
  }

  /** The time of the last of the battle's attack reports among these, or none. */
  lemma {:induction false} LastAttackExactly(events: seq<Report>, battle: int)
    ensures var time := LastAttack(events, battle);
      && (time.None? <==> forall k :: 0 <= k < |events| && events[k].attack ==> events[k].battle != battle)
      && (time.Some? ==> exists k: nat :: k < |events| && IsLastAttack(events, battle, k) && events[k].at == time.value)
  {
    if events != [] {
      var last, before := |events| - 1, events[..|events| - 1];
      LastAttackExactly(before, battle);
      if events[last].attack && events[last].battle == battle {
        assert IsLastAttack(events, battle, last);
      } else if LastAttack(before, battle).Some? {
        var k: nat :| k < |before| && IsLastAttack(before, battle, k)
            && before[k].at == LastAttack(before, battle).value;
        assert IsLastAttack(events, battle, k);
      }
    }
  }

  predicate HasAttack(table: seq<Row>, log: int, battle: int) { LastAttack(ReportsOf(table, log), battle).Some? }

  /** The k-th log has an attack report of the battle, and no later one has. */
  predicate IsLastLog(table: seq<Row>, order: seq<int>, battle: int, k: nat)
    requires k < |order|
  {
    HasAttack(table, order[k], battle) && forall j :: k < j < |order| ==> !HasAttack(table, order[j], battle)
  }

  lemma StaysLastLog(table: seq<Row>, order: seq<int>, battle: int, k: nat)
    requires k < |order| - 1 && IsLastLog(table, order[..|order| - 1], battle, k)
    requires !HasAttack(table, order[|order| - 1], battle)
    ensures IsLastLog(table, order, battle, k)
  {
    var before := order[..|order| - 1];
    forall j | k < j < |order| ensures !HasAttack(table, order[j], battle) {
      if j < |before| { assert before[j] == order[j]; }
    }
  }

  lemma {:induction false} LastLogOf(table: seq<Row>, order: seq<int>, battle: int) returns (k: nat)
    requires TimeIn(table, order, battle).Some?
    ensures k < |order| && IsLastLog(table, order, battle, k)
    ensures LastAttack(ReportsOf(table, order[k]), battle) == TimeIn(table, order, battle)
  {
    var last := |order| - 1;
    if HasAttack(table, order[last], battle) {
      k := last;
    } else {
      k := LastLogOf(table, order[..last], battle);
      StaysLastLog(table, order, battle, k);
    }
  }

  lemma {:induction false} NoLogHas(table: seq<Row>, order: seq<int>, battle: int, k: nat)
    requires TimeIn(table, order, battle).None? && k < |order|
    ensures !HasAttack(table, order[k], battle)
  {
    var last := |order| - 1;
    if k < last { NoLogHas(table, order[..last], battle, k); }
  }

  /** A battle's time is that of the last log to have one; without any the battle has none. */
  lemma TimeIsLast(table: seq<Row>, order: seq<int>, battle: int)
    ensures var time := TimeIn(table, order, battle);
      && (time.None? <==> forall k :: 0 <= k < |order| ==> !HasAttack(table, order[k], battle))
      && (time.Some? ==> exists k: nat :: k < |order| && IsLastLog(table, order, battle, k)
                                    && LastAttack(ReportsOf(table, order[k]), battle) == time)
  {
    if TimeIn(table, order, battle).Some? {
      var k := LastLogOf(table, order, battle);
      assert HasAttack(table, order[k], battle);
    } else {
      forall k | 0 <= k < |order| ensures !HasAttack(table, order[k], battle) { NoLogHas(table, order, battle, k); }
    }
  }

  /** A report's battle ended at its attack, at the attacker's report, or 155 seconds after the defender's. */
  lemma EndTells(table: seq<Row>, order: seq<int>, r: Report)
    ensures r.attack ==> EndOf(table, order, r) == r.at
    ensures !r.attack ==>
              EndOf(table, order, r)
              == if TimeIn(table, order, r.battle).Some? then TimeIn(table, order, r.battle).value
                  else r.at + 155 * SECOND
  {}

  // ----- The read -----

  function Select(table: seq<Row>, logs: seq<int>): seq<Row> {
    if table == [] then []
    else
      var last := table[|table| - 1];
      Select(table[..|table| - 1], logs) + if last.log in logs then [last] else []
  }

  /** Reading some logs' rows reads each one's reports, in their order, and only those logs'. */
  lemma {:induction false} SelectReads(table: seq<Row>, logs: seq<int>, log: int)
    ensures ReportsOf(Select(table, logs), log) == if log in logs then ReportsOf(table, log) else []
  {
    if table != [] {
      var rows, last := Select(table[..|table| - 1], logs), table[|table| - 1];
      SelectReads(table[..|table| - 1], logs, log);
      if last.log in logs {
        ReportsGoOn(rows, last, log);
      } else {
        assert rows + [] == rows;
        assert ReportsOf(table, log)
            == ReportsOf(table[..|table| - 1], log) + if last.log == log then [last.report] else [];
      }
    }
  }

  lemma ReportsGoOn(rows: seq<Row>, row: Row, log: int)
    ensures ReportsOf(rows + [row], log) == ReportsOf(rows, log) + if row.log == log then [row.report] else []
  {
    assert (rows + [row])[..|rows|] == rows;
  }

  lemma {:induction false} SelectOnly(table: seq<Row>, logs: seq<int>)
    ensures forall k :: 0 <= k < |Select(table, logs)| ==> Select(table, logs)[k].log in logs
  {
    if table != [] {
      SelectOnly(table[..|table| - 1], logs);
    }
  }

  /** What the logs to read hold once these rows were appended. */
  ghost predicate Appended(rows: seq<Row>, logs: seq<int>, read: map<int, seq<Report>>, more: map<int, seq<Report>>) {
    && more.Keys == read.Keys
    && forall log :: log in read ==> more[log] == if log in logs then ReportsOf(rows, log) else read[log]
  }

  lemma AppendedGoesOn(rows: seq<Row>, i: nat, logs: seq<int>, read: map<int, seq<Report>>, more: map<int, seq<Report>>)
    requires i < |rows| && rows[i].log in logs && rows[i].log in more && Appended(rows[..i], logs, read, more)
    ensures Appended(rows[..i + 1], logs, read, more[rows[i].log := more[rows[i].log] + [rows[i].report]])
  {
    var row := rows[i];
    var next := more[row.log := more[row.log] + [row.report]];
    assert rows[..i + 1] == rows[..i] + [row];
    forall log | log in read ensures next[log] == if log in logs then ReportsOf(rows[..i + 1], log) else read[log] {
      ReportsGoOn(rows[..i], row, log);
    }
  }

  lemma AllAppended(table: seq<Row>, logs: seq<int>, read: map<int, seq<Report>>, more: map<int, seq<Report>>)
    requires Appended(Select(table, logs), logs, read, more)
    ensures Appended(table, logs, read, more)
  {
    forall log | log in read ensures more[log] == if log in logs then ReportsOf(table, log) else read[log] {
      SelectReads(table, logs, log);
    }
  }

  /** Every row read is of a log to read. */
  ghost predicate AllIn(rows: seq<Row>, logs: seq<int>, read: map<int, seq<Report>>) {
    forall k :: 0 <= k < |rows| ==> rows[k].log in logs && rows[k].log in read
  }

  /** One read of at most LOGS_A_READ logs, each row appended to its log's reports. */
  method ReadLogs(table: seq<Row>, logs: seq<int>, read: map<int, seq<Report>>) returns (more: map<int, seq<Report>>)
    requires forall log :: log in logs ==> log in read && read[log] == []
    ensures Appended(table, logs, read, more)
  {
    var rows := Select(table, logs);
    SelectOnly(table, logs);
    assert AllIn(rows, logs, read);
    more := Append(rows, logs, read);
    AllAppended(table, logs, read, more);
  }

  method Append(rows: seq<Row>, logs: seq<int>, read: map<int, seq<Report>>) returns (more: map<int, seq<Report>>)
    requires AllIn(rows, logs, read) && Appended([], logs, read, read)
    ensures Appended(rows, logs, read, more)
  {
    more := read;
    for i := 0 to |rows|
      invariant Appended(rows[..i], logs, read, more)
    {
      AppendedGoesOn(rows, i, logs, read, more);
      more := more[rows[i].log := more[rows[i].log] + [rows[i].report]];
    }
    assert rows[..|rows|] == rows;
  }

  lemma {:induction false} LogsInDistinct(newest: seq<Newest>, kept: set<int>, wanted: bool)
    requires Distinct(newest)
    ensures var logs := LogsIn(newest, kept, wanted); forall a, b :: 0 <= a < b < |logs| ==> logs[a] != logs[b]
  {
    if newest != [] {
      var before, last := newest[..|newest| - 1], newest[|newest| - 1].log;
      LogsInDistinct(before, kept, wanted);
      LogsInHold(before, kept, wanted, last);
      assert !IsNewest(before, last);
    }
  }

  /** The newest logs whose reports are kept from before, and the others. */
  method Divide(newest: seq<Newest>, reports: map<int, seq<Report>>)
    returns (kept: map<int, seq<Report>>, known: seq<int>, unread: seq<int>)
    ensures known == LogsIn(newest, reports.Keys, true) && unread == LogsIn(newest, reports.Keys, false)
    ensures forall log :: log in kept ==> log in known && log in reports && kept[log] == reports[log]
    ensures forall k :: 0 <= k < |known| ==> known[k] in kept
  {
    kept, known, unread := map[], [], [];
    for i := 0 to |newest|
      invariant known == LogsIn(newest[..i], reports.Keys, true) && unread == LogsIn(newest[..i], reports.Keys, false)
      invariant forall log :: log in kept ==> log in known && log in reports && kept[log] == reports[log]
      invariant forall k :: 0 <= k < |known| ==> known[k] in kept
    {
      var log := newest[i].log;
      assert newest[..i + 1][..i] == newest[..i];
      if log in reports {
        kept, known := kept[log := reports[log]], known + [log];
      } else {
        unread := unread + [log];
      }
    }
    assert newest[..|newest|] == newest;
  }

  /** The reports of the logs to read, a few thousand logs at a time. */
  method ReadAll(table: seq<Row>, unread: seq<int>) returns (read: map<int, seq<Report>>)
    requires forall a, b :: 0 <= a < b < |unread| ==> unread[a] != unread[b]
    ensures (forall log :: log in read ==> log in unread) && forall m :: 0 <= m < |unread| ==> unread[m] in read
    ensures True(table, read)
  {
    read := map log | log in unread :: [];
    ghost var keys := read.Keys;
    var first := 0;
    while first < |unread|
      invariant 0 <= first <= |unread| && read.Keys == keys
      invariant forall m :: 0 <= m < first ==> read[unread[m]] == ReportsOf(table, unread[m])
      invariant forall m :: first <= m < |unread| ==> read[unread[m]] == []
    {
      var end := Min(first + LOGS_A_READ, |unread|);
      var chunk := unread[first..end];
      ghost var before := read;
      forall log | log in chunk ensures log in read && read[log] == [] {
        var k :| 0 <= k < |chunk| && chunk[k] == log;
        assert log == unread[first + k];
      }
      read := ReadLogs(table, chunk, read);
      forall m | 0 <= m < |unread| && !(first <= m < end) ensures read[unread[m]] == before[unread[m]] {
        NotInStretch(unread, first, end, m);
      }
      forall m | first <= m < end ensures read[unread[m]] == ReportsOf(table, unread[m]) {
        assert chunk[m - first] == unread[m];
      }
      first := end;
    }
    forall log | log in read ensures read[log] == ReportsOf(table, log) {
      var m :| 0 <= m < |unread| && unread[m] == log;
    }
  }

  lemma NotInStretch(s: seq<int>, from: nat, to: nat, m: nat)
    requires from <= to <= |s| && m < |s| && !(from <= m < to) && forall a, b :: 0 <= a < b < |s| ==> s[a] != s[b]
    ensures s[m] !in s[from..to]
  {}

  /** The newest logs' reports, those kept from before and the others read, in the order they are gone through. */
  method Gather(table: seq<Row>, newest: seq<Newest>, reports: map<int, seq<Report>>)
    returns (kept: map<int, seq<Report>>, order: seq<int>)
    requires Distinct(newest) && True(table, reports)
    ensures True(table, kept) && order == Gone(newest, reports.Keys)
    ensures (forall log :: log in kept ==> log in order) && forall k :: 0 <= k < |order| ==> order[k] in kept
  {
    var before, known, unread := Divide(newest, reports);
    LogsInDistinct(newest, reports.Keys, false);
    var read := ReadAll(table, unread);
    kept, order := before + read, known + unread;
  }

  /** The attack times found so far, by battle. */
  ghost predicate AttackTimes(table: seq<Row>, order: seq<int>, ends: map<int, int>) {
    forall b :: Lookup(ends, b) == TimeIn(table, order, b)
  }

  method AddAttacks(events: seq<Report>, ends: map<int, int>) returns (more: map<int, int>)
    ensures forall b :: Lookup(more, b) == OrElse(LastAttack(events, b), Lookup(ends, b))
  {
    more := ends;
    for i := 0 to |events|
      invariant forall b :: Lookup(more, b) == OrElse(LastAttack(events[..i], b), Lookup(ends, b))
    {
      assert events[..i + 1][..i] == events[..i];
      if events[i].attack {
        more := more[events[i].battle := events[i].at];
      }
    }
    assert events[..|events|] == events;
  }

  method AllAttacks(table: seq<Row>, order: seq<int>, kept: map<int, seq<Report>>) returns (ends: map<int, int>)
    requires True(table, kept) && forall k :: 0 <= k < |order| ==> order[k] in kept
    ensures AttackTimes(table, order, ends)
  {
    ends := map[];
    for i := 0 to |order|
      invariant AttackTimes(table, order[..i], ends)
    {
      ghost var before := ends;
      ends := AddAttacks(kept[order[i]], ends);
      AttackTimesGoOn(table, order, i, before, ends);
    }
    assert order[..|order|] == order;
  }

  lemma AttackTimesGoOn(table: seq<Row>, order: seq<int>, i: nat, before: map<int, int>, after: map<int, int>)
    requires i < |order| && AttackTimes(table, order[..i], before)
    requires forall b :: Lookup(after, b) == OrElse(LastAttack(ReportsOf(table, order[i]), b), Lookup(before, b))
    ensures AttackTimes(table, order[..i + 1], after)
  {
    assert order[..i + 1][..i] == order[..i];
  }

  /** max(ends) over one log's reports that moved trophies. */
  method NewestEnd(table: seq<Row>, order: seq<int>, events: seq<Report>, ends: map<int, int>)
    returns (latest: Option<int>)
    requires AttackTimes(table, order, ends)
    ensures IsLatest(table, order, events, latest)
  {
    latest := None;
    for i := 0 to |events|
      invariant IsLatest(table, order, events[..i], latest)
    {
      var r := events[i];
      var end := if r.attack then r.at else Lookup(ends, r.battle).GetOr(r.at + REPORT_TO_END);
      assert end == EndOf(table, order, r);
      ghost var before := latest;
      if r.moved && (latest.None? || end > latest.value) {
        latest := Some(end);
      }
      LatestGoesOn(table, order, events, i, before, latest);
    }
    assert events[..|events|] == events;
  }

  lemma LatestGoesOn(table: seq<Row>, order: seq<int>, events: seq<Report>, i: nat, before: Option<int>,
          after: Option<int>)
    requires i < |events| && IsLatest(table, order, events[..i], before)
    requires var end := EndOf(table, order, events[i]);
      after == if events[i].moved && (before.None? || end > before.value) then Some(end) else before
    ensures IsLatest(table, order, events[..i + 1], after)
  {
    var some, more := events[..i], events[..i + 1];
    if after.Some? {
      if after == before {
        var j :| 0 <= j < |some| && some[j].moved && EndOf(table, order, some[j]) == before.value;
        assert more[j] == some[j];
      } else {
        assert more[i] == events[i];
      }
    }
    forall j | 0 <= j < |more| && more[j].moved ensures after.Some? && EndOf(table, order, more[j]) <= after.value {
      if j < i {
        assert some[j] == more[j];
      }
    }
  }

  /**
   Each player's latest change is the latest end in their newest log, battles' attack times taken from
   all the newest logs, those kept from before first; exactly the newest logs' reports are kept.
   */
  method LatestChanges(table: seq<Row>, newest: seq<Newest>, reports: map<int, seq<Report>>)
    returns (latest: map<int, int>, kept: map<int, seq<Report>>)
    requires Distinct(newest) && True(table, reports)
    ensures True(table, kept) && forall log :: log in kept <==> IsNewest(newest, log)
    ensures forall i :: 0 <= i < |newest| ==>
        IsLatest(table, Gone(newest, reports.Keys), ReportsOf(table, newest[i].log), Lookup(latest, newest[i].player))
    ensures forall p :: p in latest ==> exists i :: 0 <= i < |newest| && newest[i].player == p
  {
    var order;
    kept, order := Gather(table, newest, reports);
    forall log ensures log in kept <==> IsNewest(newest, log) { GoneHolds(newest, reports.Keys, log); }
    var ends := AllAttacks(table, order, kept);
    latest := map[];
    for i := 0 to |newest|
      invariant forall j :: 0 <= j < i ==>
          IsLatest(table, order, ReportsOf(table, newest[j].log), Lookup(latest, newest[j].player))
      invariant forall p :: p in latest ==> exists j :: 0 <= j < i && newest[j].player == p
    {
      assert IsNewest(newest, newest[i].log);
      var end := NewestEnd(table, order, kept[newest[i].log], ends);
      if end.Some? {
        latest := latest[newest[i].player := end.value];
      }
    }
  }

  // ----- When what was kept does not matter -----

  /** No two newest logs end a battle's attack at different times, as no battle with one attacker does. */
  ghost predicate Agree(table: seq<Row>, newest: seq<Newest>) {
    forall i, j, battle :: 0 <= i < |newest| && 0 <= j < |newest| ==>
      SameTime(LastAttack(ReportsOf(table, newest[i].log), battle), LastAttack(ReportsOf(table, newest[j].log), battle))
  }

  predicate SameTime(a: Option<int>, b: Option<int>) { a.Some? && b.Some? ==> a == b }

  lemma {:induction false} TimeIsALogs(table: seq<Row>, order: seq<int>, battle: int)
    ensures var time := TimeIn(table, order, battle);
      && (time.Some? ==> exists log :: log in order && LastAttack(ReportsOf(table, log), battle) == time)
      && (time.None? ==> forall log :: log in order ==> LastAttack(ReportsOf(table, log), battle) == None)
  {
    if order != [] {
      var last, before := order[|order| - 1], order[..|order| - 1];
      TimeIsALogs(table, before, battle);
      assert order == before + [last];
    }
  }

  /** Where the newest logs agree, the attack times are the same whatever was kept. */
  lemma AgreementIsEnough(table: seq<Row>, newest: seq<Newest>, a: set<int>, b: set<int>, battle: int)
    requires Agree(table, newest)
    ensures TimeIn(table, Gone(newest, a), battle) == TimeIn(table, Gone(newest, b), battle)
  {
    TimeIsALogs(table, Gone(newest, a), battle);
    TimeIsALogs(table, Gone(newest, b), battle);
    forall log ensures log in Gone(newest, a) <==> log in Gone(newest, b) {
      GoneHolds(newest, a, log);
      GoneHolds(newest, b, log);
    }
    var first, second := TimeIn(table, Gone(newest, a), battle), TimeIn(table, Gone(newest, b), battle);
    if first.Some? && second.Some? {
      var l :| l in Gone(newest, a) && LastAttack(ReportsOf(table, l), battle) == first;
      var m :| m in Gone(newest, b) && LastAttack(ReportsOf(table, m), battle) == second;
      GoneHolds(newest, a, l);
      GoneHolds(newest, b, m);
      var i :| 0 <= i < |newest| && newest[i].log == l;
      var j :| 0 <= j < |newest| && newest[j].log == m;
      assert SameTime(LastAttack(ReportsOf(table, newest[i].log), battle),
          LastAttack(ReportsOf(table, newest[j].log), battle));
    }
  }

  /** With every other log kept, a log is gone through last. */
  lemma AloneIsLast(table: seq<Row>, newest: seq<Newest>, i: nat, battle: int) returns (kept: set<int>)
    requires i < |newest| && LastAttack(ReportsOf(table, newest[i].log), battle).Some?
    ensures TimeIn(table, Gone(newest, kept), battle) == LastAttack(ReportsOf(table, newest[i].log), battle)
  {
    kept := (set j | 0 <= j < |newest| :: newest[j].log) - {newest[i].log};
    forall log ensures log in LogsIn(newest, kept, false) <==> log == newest[i].log {
      LogsInHold(newest, kept, false, log);
    }
    var order, read := Gone(newest, kept), LogsIn(newest, kept, false);
    assert newest[i].log in read;
    assert order[|order| - 1] == read[|read| - 1];
    assert read[|read| - 1] in read;
  }

  /** The attack times do not depend on what was kept exactly when the newest logs agree on every battle. */
  lemma KeptMattersExactly(table: seq<Row>, newest: seq<Newest>)
    ensures Agree(table, newest)
      <==> forall a, b, battle :: TimeIn(table, Gone(newest, a), battle) == TimeIn(table, Gone(newest, b), battle)
  {
    if Agree(table, newest) {
      forall a, b, battle ensures TimeIn(table, Gone(newest, a), battle) == TimeIn(table, Gone(newest, b), battle) {
        AgreementIsEnough(table, newest, a, b, battle);
      }
    } else {
      var i, j, battle :| 0 <= i < |newest| && 0 <= j < |newest|
        && !SameTime(LastAttack(ReportsOf(table, newest[i].log), battle),
             LastAttack(ReportsOf(table, newest[j].log), battle));
      var a := AloneIsLast(table, newest, i, battle);
      var b := AloneIsLast(table, newest, j, battle);
      assert TimeIn(table, Gone(newest, a), battle) != TimeIn(table, Gone(newest, b), battle);
    }
  }

  /** Where the newest logs agree, keeping reports gives the answer of reading everything afresh. */
  lemma KeptIsFresh(table: seq<Row>, newest: seq<Newest>, kept: set<int>, events: seq<Report>, latest: Option<int>)
    requires Agree(table, newest) && IsLatest(table, Gone(newest, kept), events, latest)
    ensures IsLatest(table, Gone(newest, {}), events, latest)
  {
    forall j | 0 <= j < |events|
      ensures EndOf(table, Gone(newest, kept), events[j]) == EndOf(table, Gone(newest, {}), events[j])
    {
      AgreementIsEnough(table, newest, kept, {}, events[j].battle);
    }
  }

  /** Where they do not, the latest change of a player whom that battle's defense report moved depends on it. */
  lemma DisagreementMatters(table: seq<Row>, newest: seq<Newest>, i: nat, j: nat, r: Report)
    returns (a: set<int>, b: set<int>)
    requires i < |newest| && j < |newest| && !r.attack && r.moved
    requires !SameTime(LastAttack(ReportsOf(table, newest[i].log), r.battle),
        LastAttack(ReportsOf(table, newest[j].log), r.battle))
    ensures forall latest :: IsLatest(table, Gone(newest, a), [r], latest) ==>
        !IsLatest(table, Gone(newest, b), [r], latest)
  {
    a := AloneIsLast(table, newest, i, r.battle);
    b := AloneIsLast(table, newest, j, r.battle);
    assert [r][0] == r;
  }

  /** Such saved battles: two attack reports of one battle, and the defense report in a third player's log. */
  lemma DisagreementIsPossible() returns (table: seq<Row>, newest: seq<Newest>, a: set<int>, b: set<int>)
    ensures Distinct(newest) && !Agree(table, newest)
    ensures exists k :: 0 <= k < |newest| && forall latest ::
        IsLatest(table, Gone(newest, a), ReportsOf(table, newest[k].log), latest)
        ==> !IsLatest(table, Gone(newest, b), ReportsOf(table, newest[k].log), latest)
  {
    var r := Report(false, 7, 500 * SECOND, true);
    var first, second, third := Row(10, Report(true, 7, 100 * SECOND, true)),
        Row(20, Report(true, 7, 200 * SECOND, true)), Row(30, r);
    table, newest := [] + [first] + [second] + [third], [Newest(1, 10), Newest(2, 20), Newest(3, 30)];
    forall log ensures ReportsOf(table, log)
      == [] + (if log == 10 then [first.report] else []) + (if log == 20 then [second.report] else [])
          + (if log == 30 then [r] else [])
    {
      ReportsGoOn([], first, log);
      ReportsGoOn([] + [first], second, log);
      ReportsGoOn([] + [first] + [second], third, log);
    }
    assert newest[0].log == 10 && newest[1].log == 20 && newest[2].log == 30;
    assert ReportsOf(table, 10) == [first.report] && ReportsOf(table, 20) == [second.report]
        && ReportsOf(table, 30) == [r];
    assert !SameTime(LastAttack(ReportsOf(table, newest[0].log), 7), LastAttack(ReportsOf(table, newest[1].log), 7));
    a, b := DisagreementMatters(table, newest, 0, 1, r);
    assert ReportsOf(table, newest[2].log) == [r];
  }
}
