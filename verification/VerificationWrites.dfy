/**
 The writes of reserve_verification, complete_verification and
 complete_invalid_verification_request, row by row, each proved to be the steps of the
 Verification machine that its transaction stands for.
 */
module VerificationWrites {
  import opened Basics
  import opened Windows
  import opened Verification

  class VerificationTables {
    var rows: map<int, Row>
    var audits: map<int, Option<Answer>>
    var log: seq<Entry>
    var links: map<int, int>
    var clock: int
    ghost var touched: set<int>

    /** The machine's state with these tables and one call. */
    ghost function Value(c: int, call: Call, asked: seq<int>, replies: set<Told>): State
      reads this
    {
      State(rows, audits, log, links, map[c := call], asked, replies, touched, clock)
    }

    /** The SELECT's count(*) and min(created_at). */
    method CountAttempts(account: int, at: int) returns (attempts: nat, oldest: int)
      ensures attempts == |Since(log, |log|, {account}, at - MINUTE)|
      ensures attempts > 0 ==> oldest == Oldest(log, Since(log, |log|, {account}, at - MINUTE))
    {
      attempts, oldest := 0, 0;
      ghost var found: set<nat> := {};
      ghost var first := 0;
      for i := 0 to |log|
        invariant found == Since(log, i, {account}, at - MINUTE) && attempts == |found|
        invariant found != {} ==> first in found && log[first].at == oldest && forall j :: j in found ==>
            oldest <= log[j].at
      {
        if log[i].who == account && log[i].at > at - MINUTE {
          if attempts == 0 || log[i].at < oldest {
            oldest, first := log[i].at, i;
          }
          attempts := attempts + 1;
          found := found + {i};
        }
      }
      if attempts > 0 {
        MinExists(log, found);
      }
    }

    /** The rate limit's refusal; a recorded request spends no attempt. */
    method Refuse(request: int, account: int, counted: int) returns (answer: Option<Answer>)
      ensures answer == if request !in rows && |Since(log, |log|, {account}, counted - MINUTE)| >= ATTEMPTS
                        then Some(RateLimited(Max(1, CeilSeconds(
                               Oldest(log, Since(log, |log|, {account}, counted - MINUTE)) + MINUTE - counted))))
                        else None
    {
      answer := None;
      if request !in rows {
        var attempts, oldest := CountAttempts(account, counted);
        if attempts >= ATTEMPTS {
          answer := Some(RateLimited(Max(1, CeilSeconds(oldest + MINUTE - counted))));
        }
      }
    }

    /** Reserves a new request and its pending audit, or finds the recorded one's answer. */
    method ReserveRequest(c: int, request: int, binding: Binding, counted: int, at: int, made: int,
            ghost asked: seq<int>, ghost replies: set<Told>)
      returns (answer: Option<Answer>)
      modifies this
      ensures Value(c, Call(request, binding, if answer.None? then Reserved else Over(answer)), asked, replies)
        == ReservedCall(old(Value(c, Call(request, binding, Counted(counted)), asked, replies)), c, at, made)
    {
      if request !in rows {
        rows := rows[request := Row(binding, InProgress(at + RESERVATION), c, at)];
        audits := audits[request := None];
        log := log + [Entry(binding.account, made)];
        clock := made;
        return None;
      }
      clock := at;
      var row := rows[request];
      if row.binding != binding {
        return Some(Conflict);
      }
      if row.state.InProgress? {
        if row.state.until <= at && Lookup(audits, request) == Some(None) {
          CompleteRequest(request, Unavailable);
          return Some(Unavailable);
        }
        return Some(StillRunning);
      }
      answer := Some(row.state.answer);
    }

    /** None reserves the request for this call; otherwise the answer it is given at once. */
    method ReserveVerification(c: int, request: int, binding: Binding, counted: int, at: int, made: int,
            ghost asked: seq<int>, ghost replies: set<Told>)
      returns (answer: Option<Answer>)
      requires clock <= counted <= at <= made
      modifies this
      ensures var count := CountedCall(old(Value(c, Call(request, binding, Begins), asked, replies)), c, counted);
        Value(c, Call(request, binding, if answer.None? then Reserved else Over(answer)), asked, replies)
        == if count.calls[c].phase.Over? then count else ReservedCall(count, c, at, made)
    {
      ghost var count := CountedCall(Value(c, Call(request, binding, Begins), asked, replies), c, counted);
      answer := Refuse(request, binding.account, counted);
      clock := counted;
      if answer.Some? {
        assert count == Value(c, Call(request, binding, Over(answer)), asked, replies);
        return;
      }
      assert count == Value(c, Call(request, binding, Counted(counted)), asked, replies);
      answer := ReserveRequest(c, request, binding, counted, at, made, asked, replies);
    }

    /** The audit's outcome and the request's stored answer. */
    method CompleteRequest(request: int, result: Answer)
      requires request in rows
      modifies `rows, `audits
      ensures audits == old(audits)[request := Some(result)]
      ensures rows == old(rows)[request := old(rows)[request].(state := Complete(result))]
    {
      audits := audits[request := Some(result)];
      rows := rows[request := rows[request].(state := Complete(result))];
    }

    /** _assert_request_binding, and the pending audit that the update needs. */
    predicate Mine(request: int, binding: Binding)
      reads this
    {
      && request in rows && rows[request].binding == binding && rows[request].state.InProgress?
      && Lookup(audits, request) == Some(None)
    }

    /** None when the reservation was lost, which raises and changes nothing. */
    method CompleteVerification(c: int, request: int, binding: Binding, outcome: Outcome, ghost asked: seq<int>,
            ghost replies: set<Told>)
      returns (answer: Option<Answer>)
      modifies this
      ensures answer.Some? <==> old(Mine(request, binding))
      ensures answer.Some? ==>
        Value(c, Call(request, binding, Over(answer)), asked, replies)
        == Finished(old(Value(c, Call(request, binding, Got(outcome)), asked, replies)), c, outcome)
      ensures answer.None? ==> unchanged(this)
    {
      if !Mine(request, binding) {
        return None;
      }
      var result;
      match outcome {
        case BadToken => result := InvalidToken;
        case NoAnswer => result := Unavailable;
        case Verified =>
          if binding.tag !in links {
            links := links[binding.tag := binding.account];
            touched := touched + {request};
            result := Linked;
          } else if links[binding.tag] == binding.account {
            links := links[binding.tag := binding.account];
            touched := touched + {request};
            result := AlreadyLinked;
          } else {
            result := SupportRequired;
          }
      }
      CompleteRequest(request, result);
      answer := Some(result);
    }

    /** Closes a reserved request whose body was invalid. */
    method CompleteInvalid(c: int, request: int, binding: Binding, ghost asked: seq<int>, ghost replies: set<Told>)
      returns (answer: Option<Answer>)
      modifies this
      ensures answer.Some? <==> old(Mine(request, binding))
      ensures answer.Some? ==>
        Value(c, Call(request, binding, Over(answer)), asked, replies)
        == Answered(Completed(old(Value(c, Call(request, binding, Reserved), asked, replies)), request,
            InvalidRequest), c, InvalidRequest)
      ensures answer.None? ==> unchanged(this)
    {
      if !Mine(request, binding) {
        return None;
      }
      CompleteRequest(request, InvalidRequest);
      answer := Some(InvalidRequest);
    }
  }
}
