/** What the messages of a rendezvous say: each payload carries the nonce that its sender drew
    and the time that it read, and what a party receives are the times that its peer read. */
module Contents {
  import opened Rendezvous
  import Text

  /** A step in which a party of session `i` sends. */
  predicate IsSend(s: State, step: Step, i: nat) {
    step.Act? && step.session == i < |s.sessions| && s.sessions[i].Member(step.role).phase.Sending?
  }

  /** The steps in which a party of session `i` sends, in order. */
  function Sends(states: seq<State>, steps: seq<Step>, i: nat, k: nat): seq<nat>
    requires |states| == |steps| + 1 && k <= |steps|
  {
    if k == 0 then []
    else Sends(states, steps, i, k - 1) + if IsSend(states[k - 1], steps[k - 1], i) then [k - 1] else []
  }

  /** Payload `n`, sent by step `step`: under the shared key and the nonce that was drawn, the
      line of the round with the time that was read. */
  predicate IsSentBy(payload: Term, key: Term, n: nat, step: Step) {
    step.Act? && payload == Enc(key, step.nonce, Message(Author(n), n / 2 + 1, step.time))
  }

  lemma ActLogs(x: Session, store: Store, role: Role, nonce: int, time: string, rounds: (int, int))
    requires SessionOk(x, store, rounds) && x.Member(role).Running()
    ensures var x', n := ActOn(store, x, role, nonce, time).1, |x.log|;
      x'.log == if x.Member(role).phase.Sending? then x.log + [Enc(x.Key(), nonce, Message(Author(n), n / 2 + 1, time))]
                else x.log
  {
    var p := x.Member(role);
    assert PartyOk(p, role, x.Key(), x.log, Rounds(rounds, role));
  }

  lemma StepLogs(s: State, step: Step, rounds: seq<(int, int)>, i: nat)
    requires Inv(s, rounds) && Enabled(s, step) && i < |rounds|
    ensures i < |s.sessions| && |Next(s, step).sessions| == |rounds|
    ensures var (x, x') := (s.sessions[i], Next(s, step).sessions[i]);
      if IsSend(s, step, i) then
        |x'.log| == |x.log| + 1 && x'.log[..|x.log|] == x.log && IsSentBy(x'.log[|x.log|], x.Key(), |x.log|, step)
      else x'.log == x.log
  {
    hide SessionOk, ActOn;
    if step.Act? && step.session == i {
      ActLogs(s.sessions[i], s.store, step.role, step.nonce, step.time, rounds[i]);
    }
  }

  /** Over every run, for every pair: payload `n` of its log is what the step of its `n`th send
      says. */
  lemma {:induction false} EveryPayload(states: seq<State>, steps: seq<Step>, pairs: seq<Pair>, k: nat, i: nat)
    requires IsRun(states, steps) && Initial(states[0], pairs) && k <= |steps| && i < |pairs|
    ensures |states[k].sessions| == |pairs|
    ensures var (log, sends) := (states[k].sessions[i].log, Sends(states, steps, i, k));
      && |log| == |sends|
      && forall n | 0 <= n < |log| ::
           sends[n] < k && IsSentBy(log[n], pairs[i].Begin().Key(), n, steps[sends[n]])
  {
    hide Inv, Enabled, Next, IsSentBy;
    if k != 0 {
      EveryPayload(states, steps, pairs, k - 1, i);
      RunInv(states, steps, pairs, k - 1);
      KeysStay(states, steps, pairs, k - 1, i);
      StepLogs(states[k - 1], steps[k - 1], RoundsOf(pairs), i);
      var (log, sends) := (states[k].sessions[i].log, Sends(states, steps, i, k));
      var before := states[k - 1].sessions[i].log;
      forall n | 0 <= n < |log| ensures sends[n] < k && IsSentBy(log[n], pairs[i].Begin().Key(), n, steps[sends[n]]) {
        if n < |before| {
          assert log[n] == before[n] && sends[n] == Sends(states, steps, i, k - 1)[n];
        }
      }
    }
  }

  /** The `m`th message for a party among the payloads. */
  lemma {:induction false} InboxAt(key: Term, log: seq<Term>, role: Role, n: nat, m: nat)
    requires LogOk(key, log) && n <= |log| && m < |Inbox(log, role, n)|
    ensures var at := 2 * m + if role.Initiator? then 1 else 0;
      at < n && log[at].Enc? && Inbox(log, role, n)[m] == log[at].message
  {
    InboxLength(key, log, role, n);
    InboxLength(key, log, role, n - 1);
    assert IsPayload(log[n - 1], key, n - 1);
    if m < |Inbox(log, role, n - 1)| {
      InboxAt(key, log, role, n - 1, m);
    }
  }

  lemma ReceivedAt(x: Session, store: Store, rounds: (int, int), role: Role, m: nat)
    requires SessionOk(x, store, rounds) && m < |x.Member(role).received|
    ensures var at := 2 * m + if role.Initiator? then 1 else 0;
      at < |x.log| && x.log[at].Enc? && x.Member(role).received[m] == x.log[at].message
  {
    var p := x.Member(role);
    assert PartyOk(p, role, x.Key(), x.log, Rounds(rounds, role));
    InboxAt(x.Key(), x.log, role, p.position, m);
  }

  /** Over every run, what a party has received are, in order, the rounds' messages with the
      times that its peer read when it sent them. */
  lemma EveryReceived(states: seq<State>, steps: seq<Step>, pairs: seq<Pair>, k: nat, i: nat, role: Role, m: nat)
    requires IsRun(states, steps) && Initial(states[0], pairs) && k <= |steps| && i < |pairs|
    requires i < |states[k].sessions| && m < |states[k].sessions[i].Member(role).received|
    ensures var (at, sends) := (2 * m + if role.Initiator? then 1 else 0, Sends(states, steps, i, k));
      && at < |sends| && sends[at] < k && steps[sends[at]].Act?
      && states[k].sessions[i].Member(role).received[m] == Message(Peer(role), m + 1, steps[sends[at]].time)
  {
    hide Inv, Enabled, Next, SessionOk, Initial, Sends;
    var x := states[k].sessions[i];
    RunInv(states, steps, pairs, k);
    InvHas(states[k], RoundsOf(pairs), i);
    EveryPayload(states, steps, pairs, k, i);
    ReceivedAt(x, states[k].store, pairs[i].rounds, role, m);
    var at := 2 * m + if role.Initiator? then 1 else 0;
    assert IsSentBy(x.log[at], pairs[i].Begin().Key(), at, steps[Sends(states, steps, i, k)[at]]);
    assert Author(at) == Peer(role) && at / 2 == m;
  }

  lemma InvHas(s: State, rounds: seq<(int, int)>, i: nat)
    requires Inv(s, rounds) && i < |rounds|
    ensures i < |s.sessions| && SessionOk(s.sessions[i], s.store, rounds[i])
  {
  }

  /** The lines as they are encrypted. */
  lemma LinesRead()
    ensures Print(Message(Initiator, 1, "12:00")) == "Ping 1 12:00"
    ensures Print(Message(Contributor, 10, "t")) == "Pong 10 t"
  {
    Text.LinesAsPrinted();
  }

  /** What a poll comes to: nine may find something, the tenth ends the wait whatever it
      finds. */
  lemma PollComesTo(p: Party, answer: seq<Term>)
    requires p.phase.Polling? && p.phase.polls < 10
    ensures Poll(p, answer).phase
            == if p.phase.polls == 9 then TimedOut else if answer == [] then Polling(p.phase.polls + 1) else Taking
    ensures p.phase.polls < 9 && answer != [] ==> Poll(p, answer).payload == answer[|answer| - 1]
  {
  }
}
