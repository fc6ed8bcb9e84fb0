/** Bounded polling of a remote directory. */
module Rpc {

  datatype Verdict<T> = Again | Timeout | Got(value: T)

  /** What follows a poll, when `polls` of `total` have been made, this one included. */
  function Judge<T>(polls: nat, total: int, answer: seq<T>): Verdict<T> {
    if total <= polls then Timeout
    else if answer == [] then Again
    else Got(answer[|answer| - 1])
  }

  /** How polling goes on after `polls` polls, `answers[i]` being what poll `i` is told. */
  function Outcome<T>(answers: seq<seq<T>>, total: int, polls: nat): Verdict<T>
    requires total <= |answers|
    decreases total - polls
  {
    if total <= polls then Timeout
    else
      var verdict := Judge(polls + 1, total, answers[polls]);
      if verdict.Again? then Outcome(answers, total, polls + 1) else verdict
  }

  /** Lists the directory up to `total` times; takes the last entry of the first answer that
      has one, and asks to remove it.  The answer to the last poll is never used. */
  method WaitAndRemove<T>(answers: seq<seq<T>>, total: int) returns (waited: Verdict<T>, polls: nat, removed: seq<T>)
    requires total <= |answers|
    ensures waited == Outcome(answers, total, 0) && !waited.Again?
    ensures waited.Got? <==> exists k :: 0 <= k < total - 1 && answers[k] != []
    ensures waited.Got? ==>
              && 0 < polls < total && answers[polls - 1] != []
              && (forall k | 0 <= k < polls - 1 :: answers[k] == [])
              && waited.value == answers[polls - 1][|answers[polls - 1]| - 1]
              && removed == [waited.value]
    ensures waited.Timeout? ==> removed == [] && polls == if total < 0 then 0 else total
  {
    var values: seq<T> := [];
    var count := 0;
    while count < total
      invariant 0 <= count && (if 0 < total then count < total else count == 0)
      invariant forall k | 0 <= k < count :: answers[k] == []
      invariant Outcome(answers, total, 0) == Outcome(answers, total, count)
    {
      values := answers[count];
      count := count + 1;
      if |values| > 0 || count >= total {
        break;
      }
    }
    polls := count;
    if count >= total {
      return Timeout, polls, [];
    }
    var value := values[|values| - 1];
    return Got(value), polls, [value];
  }
}
