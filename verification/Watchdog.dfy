/** The receive loop as a watchdog: it exits when heartbeats stay away too long, and sends
    one whenever nothing has come for half a minute. */
module Watchdog {
  import opened TimedStore

  const FIRST_DELAY: int := 15 * MINUTE
  const DELAY: int := 3 * MINUTE
  const PATIENCE: int := 30 * SECOND

  /** How one wait of the loop ends: with a message, or with the timer. */
  datatype Input = Heard(at: int, heartbeat: bool) | Silence(at: int)

  /** The loop's variables, the instant its current wait began, the instants at which it has
      sent heartbeats, and whether it has exited. */
  datatype Watch = Watch(timeoutDelay: int, lastHeartbeat: int, waitingSince: int, sent: seq<int>, exited: bool)

  function Start(start: int): Watch {
    Watch(FIRST_DELAY, start, start, [], false)
  }

  function Step(w: Watch, input: Input): Watch {
    if w.exited then w
    else
      match input
      case Heard(at, heartbeat) =>
        if heartbeat then w.(timeoutDelay := DELAY, lastHeartbeat := at, waitingSince := at) else w.(waitingSince := at)
      case Silence(at) =>
        if at - w.lastHeartbeat > w.timeoutDelay then w.(waitingSince := at, exited := true)
        else w.(waitingSince := at, sent := w.sent + [at])
  }

  function Run(start: int, inputs: seq<Input>): Watch {
    if inputs == [] then Start(start)
    else Step(Run(start, inputs[..|inputs| - 1]), inputs[|inputs| - 1])
  }

  /** The loop as it is written. */
  method Loop(start: int, inputs: seq<Input>)
      returns (timeoutDelay: int, lastHeartbeat: int, sent: seq<int>, exited: bool)
    ensures var w := Run(start, inputs);
      timeoutDelay == w.timeoutDelay && lastHeartbeat == w.lastHeartbeat && sent == w.sent && exited == w.exited
  {
    timeoutDelay := 15 * MINUTE;
    lastHeartbeat := start;
    sent, exited := [], false;
    var i := 0;
    while i < |inputs|
      invariant 0 <= i <= |inputs| && !exited
      invariant var w := Run(start, inputs[..i]);
        w.timeoutDelay == timeoutDelay && w.lastHeartbeat == lastHeartbeat && w.sent == sent && !w.exited
    {
      assert inputs[..i + 1][..i] == inputs[..i];
      match inputs[i]
      case Heard(at, heartbeat) =>
        i := i + 1;
        if heartbeat {
          timeoutDelay := 3 * MINUTE;
          lastHeartbeat := at;
        }
      case Silence(at) =>
        i := i + 1;
        if at - lastHeartbeat > timeoutDelay {
          ExitedStays(start, inputs, i);
          return timeoutDelay, lastHeartbeat, sent, true;
        }
        sent := sent + [at];
    }
    assert inputs[..i] == inputs;
  }

  lemma {:induction false} ExitedStays(start: int, inputs: seq<Input>, i: nat)
    requires i <= |inputs| && Run(start, inputs[..i]).exited
    ensures Run(start, inputs) == Run(start, inputs[..i])
    decreases |inputs|
  {
    if i < |inputs| {
      assert inputs[..|inputs| - 1][..i] == inputs[..i];
      ExitedStays(start, inputs[..|inputs| - 1], i);
    } else {
      assert inputs[..i] == inputs;
    }
  }

  // ----- What the history says -----

  predicate AnyHeartbeat(inputs: seq<Input>) {
    exists input | input in inputs :: input.Heard? && input.heartbeat
  }

  /** The last heartbeat, or the start. */
  function LastBeat(start: int, inputs: seq<Input>): int {
    if inputs == [] then start
    else
      var n := |inputs| - 1;
      if inputs[n].Heard? && inputs[n].heartbeat then inputs[n].at else LastBeat(start, inputs[..n])
  }

  /** A quarter of an hour before the first heartbeat, three minutes after. */
  function Allowed(inputs: seq<Input>): int {
    if AnyHeartbeat(inputs) then 180 * SECOND else 900 * SECOND
  }

  /** The wait that ends with input `i` is one too many. */
  predicate TooLong(start: int, inputs: seq<Input>, i: nat)
    requires i < |inputs|
  {
    inputs[i].Silence? && inputs[i].at - LastBeat(start, inputs[..i]) > Allowed(inputs[..i])
  }

  /** Over every run: as long as the process lives, the delay is the long one exactly until
      the first heartbeat; and it has exited exactly if some timer found the last heartbeat
      (or the start) further back than the delay then was. */
  lemma {:induction false} ExitsExactlyWhenTooLong(start: int, inputs: seq<Input>)
    ensures Run(start, inputs).exited <==> exists i | 0 <= i < |inputs| :: TooLong(start, inputs, i)
    ensures !Run(start, inputs).exited ==>
              && Run(start, inputs).timeoutDelay == Allowed(inputs)
              && Run(start, inputs).lastHeartbeat == LastBeat(start, inputs)
  {
    if inputs != [] {
      var n := |inputs| - 1;
      var before := inputs[..n];
      ExitsExactlyWhenTooLong(start, before);
      assert inputs == before + [inputs[n]];
      assert forall i | 0 <= i < n :: before[..i] == inputs[..i];
      assert forall i | 0 <= i < n :: TooLong(start, before, i) <==> TooLong(start, inputs, i);
      assert AnyHeartbeat(inputs) <==> AnyHeartbeat(before) || (inputs[n].Heard? && inputs[n].heartbeat);
      if Run(start, inputs).exited && !Run(start, before).exited {
        assert TooLong(start, inputs, n);
      }
    }
  }

  // ----- Heartbeats -----

  /** The instants at which the timer fired, in order. */
  function Silences(inputs: seq<Input>): seq<int> {
    if inputs == [] then []
    else
      var n := |inputs| - 1;
      Silences(inputs[..n]) + if inputs[n].Silence? then [inputs[n].at] else []
  }

  lemma {:induction false} LivingSends(start: int, inputs: seq<Input>)
    requires forall i | 0 <= i < |inputs| :: !TooLong(start, inputs, i)
    ensures Run(start, inputs).sent == Silences(inputs) && !Run(start, inputs).exited
  {
    if inputs != [] {
      var before := inputs[..|inputs| - 1];
      assert forall i | 0 <= i < |before| :: before[..i] == inputs[..i];
      assert forall i | 0 <= i < |before| :: TooLong(start, before, i) <==> TooLong(start, inputs, i);
      LivingSends(start, before);
      ExitsExactlyWhenTooLong(start, inputs);
    }
  }

  /** Over every run a heartbeat is sent whenever the timer fires, until it fires once too
      late; and at no other instant. */
  lemma SentExactly(start: int, inputs: seq<Input>, cut: nat)
    requires cut <= |inputs| && forall i | 0 <= i < cut :: !TooLong(start, inputs, i)
    requires cut < |inputs| ==> TooLong(start, inputs, cut)
    ensures Run(start, inputs).sent == Silences(inputs[..cut])
  {
    assert forall i | 0 <= i < cut :: inputs[..cut][..i] == inputs[..i];
    assert forall i | 0 <= i < cut :: TooLong(start, inputs[..cut], i) <==> TooLong(start, inputs, i);
    LivingSends(start, inputs[..cut]);
    if cut < |inputs| {
      ExitsExactlyWhenTooLong(start, inputs[..cut]);
      assert inputs[..cut + 1][..cut] == inputs[..cut];
      assert Run(start, inputs[..cut + 1]).exited;
      ExitedStays(start, inputs, cut + 1);
    } else {
      assert inputs[..cut] == inputs;
    }
  }

  // ----- Timed runs -----

  /** The instant at which the wait for input `i` began; handling takes no time. */
  function WaitedSince(start: int, inputs: seq<Input>, i: nat): int
    requires i <= |inputs|
  {
    if i == 0 then start else inputs[i - 1].at
  }

  /** A message ends a wait within the patience, the timer just at its end. */
  ghost predicate Timed(start: int, inputs: seq<Input>) {
    forall i | 0 <= i < |inputs| ::
      var since := WaitedSince(start, inputs, i);
      match inputs[i]
      case Heard(at, _) => since <= at <= since + PATIENCE
      case Silence(at) => at == since + PATIENCE
  }

  /** If messages come always less than the patience apart, the process neither exits nor
      sends a heartbeat. */
  lemma {:induction false} BusyIsQuiet(start: int, inputs: seq<Input>)
    requires Timed(start, inputs)
    requires forall i | 0 <= i < |inputs| :: inputs[i].at < WaitedSince(start, inputs, i) + PATIENCE
    ensures !Run(start, inputs).exited && Run(start, inputs).sent == []
  {
    if inputs != [] {
      var before := inputs[..|inputs| - 1];
      assert forall i | 0 <= i < |before| :: WaitedSince(start, before, i) == WaitedSince(start, inputs, i);
      BusyIsQuiet(start, before);
    }
  }

  /** After a live prefix, `n` timers in a row. */
  predicate OnlySilence(inputs: seq<Input>, from: nat) {
    forall i | from <= i < |inputs| :: inputs[i].Silence?
  }

  function Max(a: int, b: int): int {
    if a < b then b else a
  }

  lemma {:induction false} SilenceKeepsHistory(start: int, inputs: seq<Input>, from: nat)
    requires from <= |inputs| && OnlySilence(inputs, from)
    ensures LastBeat(start, inputs) == LastBeat(start, inputs[..from])
    ensures AnyHeartbeat(inputs) <==> AnyHeartbeat(inputs[..from])
    decreases |inputs|
  {
    if from < |inputs| {
      var n := |inputs| - 1;
      assert inputs[..n][..from] == inputs[..from] && inputs == inputs[..n] + [inputs[n]];
      SilenceKeepsHistory(start, inputs[..n], from);
    } else {
      assert inputs[..from] == inputs;
    }
  }

  /** If no message comes any more after a certain instant, the process is gone at the latest
      one patience after both that instant and the last heartbeat's delay have passed: of the
      timers that fire by then, some one ends it. */
  lemma ExitsInTime(start: int, inputs: seq<Input>, from: nat)
    requires Timed(start, inputs) && from < |inputs| && OnlySilence(inputs, from)
    requires var deadline := LastBeat(start, inputs[..from]) + Allowed(inputs[..from]);
      Max(WaitedSince(start, inputs, from), deadline) < inputs[|inputs| - 1].at
    ensures Run(start, inputs).exited
    ensures exists i :: 0 <= i < |inputs| && Run(start, inputs[..i + 1]).exited
              && inputs[i].at <=
                 Max(WaitedSince(start, inputs, from), LastBeat(start, inputs[..from]) + Allowed(inputs[..from]))
                 + PATIENCE
  {
    hide Run, LastBeat, Timed, AnyHeartbeat;
    var since := WaitedSince(start, inputs, from);
    var bound := Max(since, LastBeat(start, inputs[..from]) + Allowed(inputs[..from]));
    var i := FirstPast(start, inputs, from, bound);
    assert inputs[..i][..from] == inputs[..from];
    SilenceKeepsHistory(start, inputs[..i], from);
    assert TooLong(start, inputs, i);
    var early := inputs[..i + 1];
    assert early[..i] == inputs[..i] && TooLong(start, early, i);
    ExitsExactlyWhenTooLong(start, early);
    ExitsExactlyWhenTooLong(start, inputs);
  }

  lemma FirstPast(start: int, inputs: seq<Input>, from: nat, bound: int) returns (i: nat)
    requires Timed(start, inputs) && from < |inputs| && OnlySilence(inputs, from)
    requires WaitedSince(start, inputs, from) <= bound < inputs[|inputs| - 1].at
    ensures from <= i < |inputs| && bound < inputs[i].at <= bound + PATIENCE
  {
    i := from;
    while inputs[i].at <= bound
      invariant from <= i < |inputs| && WaitedSince(start, inputs, i) <= bound
    {
      i := i + 1;
    }
  }

  lemma SilentTooLong(start: int, inputs: seq<Input>, i: nat)
    requires i < |inputs| && OnlySilence(inputs, 0)
    ensures TooLong(start, inputs, i) <==> inputs[i].at > start + 900 * SECOND
  {
    SilenceKeepsHistory(start, inputs[..i], 0);
    assert inputs[..i][..0] == [];
  }

  /** In a room in which nobody else is, the process sends a heartbeat every half minute for a
      quarter of an hour, and then exits. */
  lemma SilentRoom(start: int, inputs: seq<Input>)
    requires |inputs| == 31 && forall i | 0 <= i < 31 :: inputs[i] == Silence(start + 30 * (i + 1) * SECOND)
    ensures Timed(start, inputs) && Run(start, inputs).exited
    ensures Run(start, inputs).sent == seq(30, i => start + 30 * (i + 1) * SECOND)
  {
    hide Timed, Silences, Run;
    forall i | 0 <= i < 31 ensures TooLong(start, inputs, i) <==> i == 30 {
      SilentTooLong(start, inputs, i);
    }
    SentExactly(start, inputs, 30);
    ExitsExactlyWhenTooLong(start, inputs);
    ThirtySilences(start, inputs);
    SilenceIsTimed(start, inputs);
  }

  lemma SilenceIsTimed(start: int, inputs: seq<Input>)
    requires |inputs| == 31 && forall i | 0 <= i < 31 :: inputs[i] == Silence(start + 30 * (i + 1) * SECOND)
    ensures Timed(start, inputs)
  {
  }

  lemma ThirtySilences(start: int, inputs: seq<Input>)
    requires |inputs| == 31 && forall i | 0 <= i < 31 :: inputs[i] == Silence(start + 30 * (i + 1) * SECOND)
    ensures Silences(inputs[..30]) == seq(30, i => start + 30 * (i + 1) * SECOND)
  {
    SilencesAre(inputs[..30]);
  }

  lemma {:induction false} SilencesAre(inputs: seq<Input>)
    requires OnlySilence(inputs, 0)
    ensures |Silences(inputs)| == |inputs| && forall i | 0 <= i < |inputs| :: Silences(inputs)[i] == inputs[i].at
  {
    if inputs != [] {
      SilencesAre(inputs[..|inputs| - 1]);
    }
  }
}
