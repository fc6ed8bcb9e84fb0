/** The two clients' loops as they are written: each runs through its rounds against
    whatever the store answers, and goes through exactly the steps of the rendezvous. */
module Clients {
  import opened Rpc
  import opened Rendezvous

  /** What a client meets in one round: the nonce it draws, the time it reads, and the
      store's answers to its polls. */
  datatype Round = Round(nonce: int, time: string, answers: seq<seq<Term>>)

  predicate Ready(rounds: seq<Round>, n: int) {
    n <= |rounds| && forall i | 0 <= i < |rounds| :: POLLS <= |rounds[i].answers|
  }

  // ----- The steps of one party, without the other -----

  function Polls(p: Party, answers: seq<seq<Term>>): Party
    requires POLLS <= |answers|
    decreases if p.phase.Polling? then POLLS - p.phase.polls else -1
  {
    if p.phase.Polling? && p.phase.polls < POLLS then Polls(Poll(p, answers[p.phase.polls]), answers) else p
  }

  function Receive(p: Party, answers: seq<seq<Term>>): Party
    requires POLLS <= |answers|
  {
    var polled := Polls(p, answers);
    if polled.phase.Taking? then Take(polled) else polled
  }

  function OneRound(p: Party, round: Round): Party
    requires POLLS <= |round.answers|
  {
    if p.role.Initiator? then Receive(Send(p, round.nonce, round.time), round.answers)
    else
      var received := Receive(p, round.answers);
      if received.phase.Sending? then Send(received, round.nonce, round.time) else received
  }

  /** What a client asks the store to change. */
  datatype Call = AddTo(directory: Term, payload: Term) | RemoveFrom(directory: Term, payload: Term)

  function ReceiveCalls(p: Party, answers: seq<seq<Term>>): seq<Call>
    requires POLLS <= |answers|
  {
    var polled := Polls(p, answers);
    if polled.phase.Taking? then [RemoveFrom(polled.directory, polled.payload)] else []
  }

  function RoundCalls(p: Party, round: Round): seq<Call>
    requires POLLS <= |round.answers|
  {
    if p.role.Initiator? then
      var sent := Send(p, round.nonce, round.time);
      [AddTo(p.directory, sent.payload)] + ReceiveCalls(sent, round.answers)
    else
      var received := Receive(p, round.answers);
      var calls := ReceiveCalls(p, round.answers);
      if received.phase.Sending? then
        calls + [AddTo(received.directory, Send(received, round.nonce, round.time).payload)]
      else calls
  }

  /** The party after its first `n` rounds, or where it stopped, and all changes it has
      asked for. */
  function After(start: Party, rounds: seq<Round>, n: nat): (Party, seq<Call>)
    requires Ready(rounds, n)
  {
    if n == 0 then (start, [])
    else
      var (p, calls) := After(start, rounds, n - 1);
      if p.Running() then (OneRound(p, rounds[n - 1]), calls + RoundCalls(p, rounds[n - 1])) else (p, calls)
  }

  lemma {:induction false} PollsAreOutcome(p: Party, answers: seq<seq<Term>>)
    requires POLLS <= |answers| && p.phase.Polling? && p.phase.polls < POLLS
    ensures Polls(p, answers) == match Outcome(answers, POLLS, p.phase.polls)
              case Got(value) => p.(phase := Taking, payload := value)
              case _ => p.(phase := TimedOut)
    decreases POLLS - p.phase.polls
  {
    var next := Poll(p, answers[p.phase.polls]);
    if next.phase.Polling? {
      PollsAreOutcome(next, answers);
    }
  }

  /** Waits for a payload and decrypts it. */
  method ReceiveFrom(ghost p: Party, box: Term, directory: Term, answers: seq<seq<Term>>)
      returns (phase: Phase, payload: Term, message: seq<Message>, calls: seq<Call>)
    requires POLLS <= |answers| && p.phase == Polling(0) && p.box == box && p.directory == directory
    ensures calls == ReceiveCalls(p, answers)
    ensures var q := Receive(p, answers);
      && (if phase.Taking? then
            q == Take(p.(phase := Taking, payload := payload)) && !q.phase.Failed?
            && payload.Enc? && payload.key == box && message == [payload.message]
          else q.phase == phase && q.received == p.received && message == [] && (phase.TimedOut? || phase.Failed?))
  {
    PollsAreOutcome(p, answers);
    var waited, polls, removed := WaitAndRemove(answers, POLLS);
    if waited.Timeout? {
      return TimedOut, Other(""), [], [];
    }
    payload := waited.value;
    calls := [RemoveFrom(directory, payload)];
    if !payload.Enc? || payload.key != box {
      return Failed, payload, [], calls;
    }
    return Taking, payload, [payload.message], calls;
  }

  /** Whether a round was completed: then the party is at the head of its loop again with
      what the loop's variables say, else it has stopped. */
  ghost predicate RoundDone(p: Party, q: Party, phase: Phase, directory: Term, payload: Term, message: seq<Message>) {
    if phase.Taking? then
      q == Party(p.role, p.box, LoopHead(p.role, p.iterations - 1), directory, payload,
                 p.counter + 1, p.iterations - 1, p.position + 2, p.received + message)
    else q.phase == phase && !q.Running() && q.received == p.received
  }

  /** The body of the initiator's loop. */
  method Ping(ghost p: Party, box: Term, directory: Term, counter: nat, round: Round)
      returns (phase: Phase, directory': Term, payload: Term, message: seq<Message>, calls: seq<Call>)
    requires POLLS <= |round.answers| && p.role.Initiator? && p.phase.Sending?
    requires p.box == box && p.directory == directory && p.counter == counter
    ensures RoundDone(p, OneRound(p, round), phase, directory', payload, message) && calls == RoundCalls(p, round)
  {
    payload := Enc(box, round.nonce, Message(Initiator, counter, round.time));
    var add := AddTo(directory, payload);
    directory' := Hash(payload);
    var more;
    phase, payload, message, more := ReceiveFrom(Send(p, round.nonce, round.time), box, directory', round.answers);
    calls := [add] + more;
    directory' := Hash(payload);
  }

  /** The body of the contributor's loop. */
  method Pong(ghost p: Party, box: Term, directory: Term, counter: nat, round: Round)
      returns (phase: Phase, directory': Term, payload: Term, message: seq<Message>, calls: seq<Call>)
    requires POLLS <= |round.answers| && p.role.Contributor? && p.phase == Polling(0)
    requires p.box == box && p.directory == directory && p.counter == counter
    ensures RoundDone(p, OneRound(p, round), phase, directory', payload, message) && calls == RoundCalls(p, round)
  {
    phase, payload, message, calls := ReceiveFrom(p, box, directory, round.answers);
    directory' := Hash(payload);
    if phase.Taking? {
      payload := Enc(box, round.nonce, Message(Contributor, counter, round.time));
      calls := calls + [AddTo(directory', payload)];
      directory' := Hash(payload);
    }
  }

  // ----- What is asked of the store -----

  /** The directory of the next call: the hash of the key, then the hash of what was last sent
      or taken. */
  function NextDirectory(box: Term, calls: seq<Call>): Term {
    if calls == [] then Hash(box) else Hash(calls[|calls| - 1].payload)
  }

  /** The call that comes at place `n`: each in the directory named by the one before, the own
      ones an Add of the round's line under the nonce that was drawn, with the time that was
      read; the peer's a Remove. */
  ghost predicate CallOk(role: Role, box: Term, rounds: seq<Round>, calls: seq<Call>, n: nat)
    requires n < |calls|
  {
    && n / 2 < |rounds| && calls[n].directory == NextDirectory(box, calls[..n])
    && if Author(n) == role then
         var round := rounds[n / 2];
         calls[n].AddTo? && calls[n].payload == Enc(box, round.nonce, Message(role, n / 2 + 1, round.time))
       else calls[n].RemoveFrom?
  }

  ghost predicate CallsOk(role: Role, box: Term, rounds: seq<Round>, calls: seq<Call>) {
    forall n | 0 <= n < |calls| :: CallOk(role, box, rounds, calls, n)
  }

  /** Message `m` is what the `m`th Remove took. */
  ghost predicate TakenAt(role: Role, received: seq<Message>, calls: seq<Call>, m: nat)
    requires m < |received|
  {
    var at := 2 * m + if role.Initiator? then 1 else 0;
    at < |calls| && calls[at].RemoveFrom? && calls[at].payload.Enc? && received[m] == calls[at].payload.message
  }

  ghost predicate ReceivedOk(role: Role, received: seq<Message>, calls: seq<Call>) {
    forall m | 0 <= m < |received| :: TakenAt(role, received, calls, m)
  }

  lemma OneMoreCall(role: Role, box: Term, rounds: seq<Round>, calls: seq<Call>, call: Call)
    requires CallsOk(role, box, rounds, calls) && CallOk(role, box, rounds, calls + [call], |calls|)
    ensures CallsOk(role, box, rounds, calls + [call])
  {
    var longer := calls + [call];
    forall n | 0 <= n < |longer| ensures CallOk(role, box, rounds, longer, n) {
      if n < |calls| {
        assert CallOk(role, box, rounds, calls, n) && longer[..n] == calls[..n] && longer[n] == calls[n];
      }
    }
  }

  /** A party at the head of its loop after `n` rounds. */
  ghost predicate AtRound(p: Party, box: Term, calls: seq<Call>, n: nat) {
    && |calls| == 2 * n && |p.received| == n && p.box == box && p.counter == n + 1
    && p.directory == NextDirectory(box, calls)
    && p.phase == if p.role.Initiator? then Sending else Polling(0)
  }

  /** What waiting and decrypting comes to. */
  lemma ReceiveComesTo(p: Party, answers: seq<seq<Term>>)
    requires POLLS <= |answers| && p.phase == Polling(0)
    ensures var (q, calls) := (Receive(p, answers), ReceiveCalls(p, answers));
      || (calls == [] && q.phase.TimedOut? && q.received == p.received)
      || exists payload ::
           && calls == [RemoveFrom(p.directory, payload)]
           && q == Take(p.(phase := Taking, payload := payload))
  {
    PollsAreOutcome(p, answers);
    var polled := Polls(p, answers);
    if polled.phase.Taking? {
      assert ReceiveCalls(p, answers) == [RemoveFrom(p.directory, polled.payload)];
      assert polled == p.(phase := Taking, payload := polled.payload);
    }
  }

  /** A message behind a call that removed it. */
  lemma OneMoreReceived(role: Role, received: seq<Message>, calls: seq<Call>, call: Call)
    requires ReceivedOk(role, received, calls)
    ensures ReceivedOk(role, received, calls + [call])
    ensures call.RemoveFrom? && call.payload.Enc? && |calls| == 2 * |received| + (if role.Initiator? then 1 else 0) ==>
              ReceivedOk(role, received + [call.payload.message], calls + [call])
  {
    forall m | 0 <= m < |received| ensures TakenAt(role, received, calls + [call], m) {
      assert TakenAt(role, received, calls, m);
    }
    if call.RemoveFrom? && call.payload.Enc? && |calls| == 2 * |received| + (if role.Initiator? then 1 else 0) {
      var longer := received + [call.payload.message];
      forall m | 0 <= m < |longer| ensures TakenAt(role, longer, calls + [call], m) {
        if m < |received| {
          assert TakenAt(role, received, calls + [call], m) && longer[m] == received[m];
        }
      }
    }
  }

  lemma InitiatorRound(p: Party, box: Term, rounds: seq<Round>, calls: seq<Call>, n: nat)
    requires n < |rounds| && POLLS <= |rounds[n].answers| && p.role.Initiator? && AtRound(p, box, calls, n)
    requires CallsOk(Initiator, box, rounds, calls) && ReceivedOk(Initiator, p.received, calls)
    ensures var (q, all) := (OneRound(p, rounds[n]), calls + RoundCalls(p, rounds[n]));
      && CallsOk(Initiator, box, rounds, all) && ReceivedOk(Initiator, q.received, all)
      && (q.Running() ==> AtRound(q, box, all, n + 1) && q.role.Initiator?)
  {
    hide Receive, ReceiveCalls;
    var round := rounds[n];
    var sent := Send(p, round.nonce, round.time);
    var add := AddTo(p.directory, sent.payload);
    assert (calls + [add])[..2 * n] == calls && Author(2 * n) == Initiator;
    OneMoreCall(Initiator, box, rounds, calls, add);
    OneMoreReceived(Initiator, p.received, calls, add);
    ReceiveComesTo(sent, round.answers);
    var more := ReceiveCalls(sent, round.answers);
    if more == [] {
      assert calls + ([add] + more) == calls + [add];
    } else {
      var payload :| more == [RemoveFrom(sent.directory, payload)]
                     && Receive(sent, round.answers) == Take(sent.(phase := Taking, payload := payload));
      var remove := RemoveFrom(sent.directory, payload);
      assert calls + ([add] + more) == (calls + [add]) + [remove];
      assert ((calls + [add]) + [remove])[..2 * n + 1] == calls + [add] && Author(2 * n + 1) == Contributor;
      OneMoreCall(Initiator, box, rounds, calls + [add], remove);
      OneMoreReceived(Initiator, p.received, calls + [add], remove);
    }
  }

  lemma ContributorRound(p: Party, box: Term, rounds: seq<Round>, calls: seq<Call>, n: nat)
    requires n < |rounds| && POLLS <= |rounds[n].answers| && p.role.Contributor? && AtRound(p, box, calls, n)
    requires CallsOk(Contributor, box, rounds, calls) && ReceivedOk(Contributor, p.received, calls)
    ensures var (q, all) := (OneRound(p, rounds[n]), calls + RoundCalls(p, rounds[n]));
      && CallsOk(Contributor, box, rounds, all) && ReceivedOk(Contributor, q.received, all)
      && (q.Running() ==> AtRound(q, box, all, n + 1) && q.role.Contributor?)
  {
    hide Receive, ReceiveCalls;
    var round := rounds[n];
    ReceiveComesTo(p, round.answers);
    var (got, more) := (Receive(p, round.answers), ReceiveCalls(p, round.answers));
    if more == [] {
      assert calls + more == calls;
    } else {
      var payload :| more == [RemoveFrom(p.directory, payload)] && got == Take(p.(phase := Taking, payload := payload));
      var remove := RemoveFrom(p.directory, payload);
      assert (calls + [remove])[..2 * n] == calls && Author(2 * n) == Initiator;
      OneMoreCall(Contributor, box, rounds, calls, remove);
      OneMoreReceived(Contributor, p.received, calls, remove);
      if got.phase.Sending? {
        var add := AddTo(got.directory, Send(got, round.nonce, round.time).payload);
        assert calls + (more + [add]) == (calls + [remove]) + [add];
        assert ((calls + [remove]) + [add])[..2 * n + 1] == calls + [remove] && Author(2 * n + 1) == Contributor;
        OneMoreCall(Contributor, box, rounds, calls + [remove], add);
        OneMoreReceived(Contributor, got.received, calls + [remove], add);
      }
    }
  }

  /** Whatever the store answers, a client asks what its role in the exchange asks. */
  lemma {:induction false} AfterAsks(start: Party, rounds: seq<Round>, n: nat)
    requires Ready(rounds, n) && start == Start(start.role, start.box, start.iterations)
    ensures var (p, calls) := After(start, rounds, n);
      && CallsOk(start.role, start.box, rounds, calls) && ReceivedOk(start.role, p.received, calls)
      && (p.Running() ==> AtRound(p, start.box, calls, n) && p.role == start.role)
  {
    hide OneRound, RoundCalls, CallsOk, ReceivedOk, AtRound;
    if n == 0 {
      StartAsks(start, rounds);
    } else {
      AfterAsks(start, rounds, n - 1);
      var (p, calls) := After(start, rounds, n - 1);
      if p.Running() {
        if p.role.Initiator? {
          InitiatorRound(p, start.box, rounds, calls, n - 1);
        } else {
          ContributorRound(p, start.box, rounds, calls, n - 1);
        }
      }
    }
  }

  lemma StartAsks(start: Party, rounds: seq<Round>)
    requires start == Start(start.role, start.box, start.iterations)
    ensures CallsOk(start.role, start.box, rounds, []) && ReceivedOk(start.role, start.received, [])
    ensures start.Running() ==> AtRound(start, start.box, [], 0)
  {
  }

  /** The party that the loop's variables describe at the head of the loop. */
  function HeadParty(
      start: Party, n: nat, left: int, directory: Term, payload: Term, counter: nat, received: seq<Message>): Party
  {
    Party(start.role, start.box, LoopHead(start.role, left), directory, payload, counter, left, 2 * n, received)
  }

  ghost predicate AtHead(
      start: Party, rounds: seq<Round>, n: nat, left: int, directory: Term, payload: Term, counter: nat,
      received: seq<Message>, calls: seq<Call>)
    requires Ready(rounds, n)
  {
    After(start, rounds, n) == (HeadParty(start, n, left, directory, payload, counter, received), calls)
  }

  lemma AtStart(start: Party, rounds: seq<Round>)
    requires Ready(rounds, 0) && start == Start(start.role, start.box, start.iterations)
    ensures AtHead(start, rounds, 0, start.iterations, Hash(start.box), Other(""), 1, [], [])
  {
  }

  /** A round of either loop: at the head again, or stopped. */
  lemma RoundMade(
      start: Party, rounds: seq<Round>, n: nat, left: int, directory: Term, payload: Term, counter: nat,
      received: seq<Message>, calls: seq<Call>,
      phase: Phase, directory': Term, payload': Term, message: seq<Message>, more: seq<Call>)
    requires Ready(rounds, n + 1) && 0 < left
    requires AtHead(start, rounds, n, left, directory, payload, counter, received, calls)
    requires var p := HeadParty(start, n, left, directory, payload, counter, received);
      RoundDone(p, OneRound(p, rounds[n]), phase, directory', payload', message) && more == RoundCalls(p, rounds[n])
    ensures if phase.Taking? then
              AtHead(start, rounds, n + 1, left - 1, directory', payload', counter + 1, received + message,
                     calls + more)
            else
              var (q, asked) := After(start, rounds, n + 1);
              !q.Running() && q.phase == phase && q.received == received && asked == calls + more
  {
    hide OneRound, RoundCalls, Ready;
    NextRound(start, rounds, n);
  }

  method RunInitiator(box: Term, numIter: int, rounds: seq<Round>)
      returns (phase: Phase, received: seq<Message>, calls: seq<Call>)
    requires Ready(rounds, numIter)
    ensures var (start, n) := (Start(Initiator, box, numIter), AtLeastZero(numIter));
      var (end, asked) := After(start, rounds, n);
      phase == end.phase && received == end.received && calls == asked
    ensures CallsOk(Initiator, box, rounds, calls) && ReceivedOk(Initiator, received, calls)
  {
    var nextDirectory, payload, counter, left := Hash(box), Other(""), 1, numIter;
    received, calls := [], [];
    ghost var start := Start(Initiator, box, numIter);
    var n := 0;
    AtStart(start, rounds);
    hide OneRound, RoundCalls, RoundDone, LoopHead, Send, Take, CallsOk, ReceivedOk, AtRound, Ready;
    AfterAsks(start, rounds, AtLeastZero(numIter));
    while left > 0
      invariant 0 <= n == AtLeastZero(numIter) - AtLeastZero(left)
      invariant AtHead(start, rounds, n, left, nextDirectory, payload, counter, received, calls)
    {
      ghost var p := HeadParty(start, n, left, nextDirectory, payload, counter, received);
      var directory, sent, message, more;
      phase, directory, sent, message, more := Ping(p, box, nextDirectory, counter, rounds[n]);
      RoundMade(start, rounds, n, left, nextDirectory, payload, counter, received, calls,
                phase, directory, sent, message, more);
      calls := calls + more;
      if !phase.Taking? {
        StoppedStays(start, rounds, n + 1, AtLeastZero(numIter));
        return phase, received, calls;
      }
      received, nextDirectory, payload := received + message, directory, sent;
      counter, left, n := counter + 1, left - 1, n + 1;
    }
    phase := Done;
  }

  method RunContributor(box: Term, numIter: int, rounds: seq<Round>)
      returns (phase: Phase, received: seq<Message>, calls: seq<Call>)
    requires Ready(rounds, numIter)
    ensures var (start, n) := (Start(Contributor, box, numIter), AtLeastZero(numIter));
      var (end, asked) := After(start, rounds, n);
      phase == end.phase && received == end.received && calls == asked
    ensures CallsOk(Contributor, box, rounds, calls) && ReceivedOk(Contributor, received, calls)
  {
    var nextDirectory, payload, counter, left := Hash(box), Other(""), 1, numIter;
    received, calls := [], [];
    ghost var start := Start(Contributor, box, numIter);
    var n := 0;
    AtStart(start, rounds);
    hide OneRound, RoundCalls, RoundDone, LoopHead, Send, Take, CallsOk, ReceivedOk, AtRound, Ready;
    AfterAsks(start, rounds, AtLeastZero(numIter));
    while left > 0
      invariant 0 <= n == AtLeastZero(numIter) - AtLeastZero(left)
      invariant AtHead(start, rounds, n, left, nextDirectory, payload, counter, received, calls)
    {
      ghost var p := HeadParty(start, n, left, nextDirectory, payload, counter, received);
      var directory, sent, message, more;
      phase, directory, sent, message, more := Pong(p, box, nextDirectory, counter, rounds[n]);
      RoundMade(start, rounds, n, left, nextDirectory, payload, counter, received, calls,
                phase, directory, sent, message, more);
      calls := calls + more;
      if !phase.Taking? {
        StoppedStays(start, rounds, n + 1, AtLeastZero(numIter));
        return phase, received, calls;
      }
      received, nextDirectory, payload := received + message, directory, sent;
      counter, left, n := counter + 1, left - 1, n + 1;
    }
    phase := Done;
  }

  lemma NextRound(start: Party, rounds: seq<Round>, n: nat)
    requires Ready(rounds, n + 1) && After(start, rounds, n).0.Running()
    ensures var (p, calls) := After(start, rounds, n);
      After(start, rounds, n + 1) == (OneRound(p, rounds[n]), calls + RoundCalls(p, rounds[n]))
  {
  }

  lemma {:induction false} StoppedStays(start: Party, rounds: seq<Round>, m: nat, n: nat)
    requires m <= n && Ready(rounds, n) && !After(start, rounds, m).0.Running()
    ensures After(start, rounds, n) == After(start, rounds, m)
  {
    if m < n {
      StoppedStays(start, rounds, m, n - 1);
    }
  }
}
