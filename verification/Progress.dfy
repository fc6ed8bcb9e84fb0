/** When a rendezvous succeeds.  Nobody waits for anything but an answer from the store, but a
    party gives up after its tenth poll.  Here: under a fair schedule, as long as nothing of
    theirs expires, a pair never gives up. */
module Progress {
  import opened Rpc
  import opened Rendezvous

  // ----- What a schedule has to do -----

  predicate IsMove(step: Step, i: nat, role: Role) {
    (step.Act? || step.Refused?) && step.session == i && step.role == role
  }

  /** The calls that a party makes from step `a` on, up to step `b`. */
  function Moves(steps: seq<Step>, i: nat, role: Role, a: nat, b: nat): nat
    requires b <= |steps|
  {
    if b <= a then 0 else Moves(steps, i, role, a, b - 1) + if IsMove(steps[b - 1], i, role) then 1 else 0
  }

  /** Wherever one of the two makes eight calls, the other makes three, or has stopped. */
  ghost predicate Fair(states: seq<State>, steps: seq<Step>, i: nat)
    requires |states| == |steps| + 1
  {
    forall role, a: nat, b: nat | a <= b <= |steps| && Moves(steps, i, role, a, b) == 8 && i < |states[b].sessions| ::
      3 <= Moves(steps, i, Peer(role), a, b) || !states[b].sessions[i].Member(Peer(role)).Running()
  }

  /** No call of the pair fails by the step, and what expires is nothing that one has sent and
      the other not yet taken. */
  ghost predicate Harmless(s: State, step: Step, i: nat) {
    && !(step.Abort? && step.session == i)
    && (step.Expire? && i < |s.sessions| ==> Present(s.sessions[i], step.left))
  }

  ghost predicate Untroubled(states: seq<State>, steps: seq<Step>, i: nat)
    requires |states| == |steps| + 1
  {
    forall k | 0 <= k < |steps| :: Harmless(states[k], steps[k], i)
  }

  // ----- One session -----

  /** Neither party has given up. */
  predicate Sound(x: Session) {
    !x.initiator.phase.TimedOut? && !x.initiator.phase.Failed?
    && !x.contributor.phase.TimedOut? && !x.contributor.phase.Failed?
  }

  /** What has been sent and not taken is there. */
  ghost predicate Present(x: Session, store: Store) {
    x.log != [] && !AllTaken(x) ==> List(store, Link(x.Key(), x.log, |x.log| - 1)) != []
  }

  /** How many calls the other party still has to make until the payload is there that a
      waiting party waits for. */
  function Need(x: Session, role: Role): nat {
    var p, q := x.Member(role), x.Member(Peer(role));
    if p.position < |x.log| then 0
    else
      match q.phase
      case Sending => 1
      case Taking => 2
      case Polling(_) => 3
      case _ => 0
  }

  /** A party that has had all its rounds is not waited for. */
  lemma NothingNeeded(x: Session, store: Store, role: Role, rounds: (int, int))
    requires SessionOk(x, store, rounds) && rounds.0 == rounds.1 && Sound(x)
    requires x.Member(role).phase.Polling? && Need(x, role) == 0
    ensures x.Member(role).position < |x.log|
  {
  }

  lemma AnswerIs(x: Session, store: Store, role: Role, rounds: (int, int))
    requires SessionOk(x, store, rounds) && rounds.0 == rounds.1 && Sound(x) && Present(x, store)
    requires x.Member(role).phase.Polling?
    ensures List(store, x.Member(role).directory) != [] <==> Need(x, role) == 0
  {
    hide SessionOk, StoreOk, LogOk;
    WaitsAtTheEnd(x, store, role, rounds);
    if x.Member(role).position == |x.log| {
      HeldAt(x.Key(), x.log, store, |x.log|);
      if Need(x, role) == 0 {
        NothingNeeded(x, store, role, rounds);
      }
    }
  }

  lemma WaitsAtTheEnd(x: Session, store: Store, role: Role, rounds: (int, int))
    requires SessionOk(x, store, rounds)
    ensures x.Member(role).position <= |x.log|
    ensures x.Member(role).directory == Link(x.Key(), x.log, x.Member(role).position)
    ensures x.Member(role).position < |x.log| ==> x.Member(role).position == |x.log| - 1 && !AllTaken(x)
    ensures LogOk(x.Key(), x.log) && StoreOk(x.Key(), x.log, store)
  {
  }

  lemma JudgeEarly(polls: nat, answer: seq<Term>)
    requires polls < POLLS - 1
    ensures Judge(polls + 1, POLLS, answer) == if answer == [] then Again else Got(answer[|answer| - 1])
  {
  }

  /** What a poll comes to that is not the last. */
  lemma PollFinds(x: Session, store: Store, role: Role, rounds: (int, int))
    requires SessionOk(x, store, rounds) && rounds.0 == rounds.1 && Sound(x) && Present(x, store)
    requires x.Member(role).phase.Polling? && x.Member(role).phase.polls < POLLS - 1
    ensures var p, p' := x.Member(role), Poll(x.Member(role), List(store, x.Member(role).directory));
      && p'.position == p.position && p'.role == p.role == role
      && if Need(x, role) == 0 then p'.phase.Taking? else p'.phase == Polling(p.phase.polls + 1)
  {
    var p := x.Member(role);
    AnswerIs(x, store, role, rounds);
    JudgeEarly(p.phase.polls, List(store, p.directory));
  }

  /** One poll: it finds what is there, or the party waits on; and the other, if it waits, has
      one call less to wait for. */
  lemma PollBrings(x: Session, store: Store, role: Role, rounds: (int, int))
    requires SessionOk(x, store, rounds) && rounds.0 == rounds.1 && Sound(x) && Present(x, store)
    requires x.Member(role).phase.Polling? && x.Member(role).phase.polls < POLLS - 1
    ensures var x' := PollOn(store, x, role);
      && x'.log == x.log && Sound(x') && x'.Member(Peer(role)) == x.Member(Peer(role))
      && (x'.Member(role).phase.Polling? ==>
            && 0 < Need(x, role) == Need(x', role)
            && x'.Member(role).phase.polls == x.Member(role).phase.polls + 1)
      && (x.Member(Peer(role)).phase.Polling? ==> Nearer(x, x', Peer(role)))
  {
    PollFinds(x, store, role, rounds);
    if x.Member(Peer(role)).phase.Polling? && Need(x, role) != 0 {
      assert x.Member(Peer(role)).position < |x.log|;
    }
  }

  /** The payload that the party waits for is there, or one call nearer. */
  predicate Nearer(x: Session, x': Session, role: Role) {
    Need(x', role) == 0 || Need(x', role) < Need(x, role)
  }

  lemma SendBrings(x: Session, store: Store, role: Role, nonce: int, time: string, rounds: (int, int))
    requires SessionOk(x, store, rounds) && Sound(x) && x.Member(role).phase.Sending?
    ensures var x' := SendOn(store, x, role, nonce, time).1;
      && Sound(x') && x'.Member(Peer(role)) == x.Member(Peer(role))
      && (x'.Member(role).phase.Polling? ==> x'.Member(role).phase.polls == 0 && Need(x', role) <= 3)
      && (x.Member(Peer(role)).phase.Polling? ==> Need(x', Peer(role)) == 0)
  {
  }

  lemma TakeBrings(x: Session, store: Store, role: Role, rounds: (int, int))
    requires SessionOk(x, store, rounds) && Sound(x) && x.Member(role).phase.Taking?
    ensures var x' := RefusedOn(x, role);
      && x'.log == x.log && Sound(x') && x'.Member(Peer(role)) == x.Member(Peer(role))
      && !x'.Member(role).phase.Polling?
      && (x.Member(Peer(role)).phase.Polling? ==> Nearer(x, x', Peer(role)))
  {
    CallSpends(x.Member(role), x.Key(), x.log, Rounds(rounds, role), [], 0, "");
  }

  lemma BringsPresent(x: Session, store: Store, role: Role, nonce: int, time: string, rounds: (int, int))
    requires SessionOk(x, store, rounds) && x.Member(role).Running() && Present(x, store)
    ensures Present(ActOn(store, x, role, nonce, time).1, ActOn(store, x, role, nonce, time).0)
  {
    hide Present, SessionOk, SendOn, PollOn, TakeOn;
    match x.Member(role).phase
    case Sending => SendBringsPresent(x, store, role, nonce, time, rounds);
    case Polling(_) => PollBringsPresent(x, store, role, rounds);
    case Taking => TakeBringsPresent(x, store, role, rounds);
  }

  lemma PollBringsPresent(x: Session, store: Store, role: Role, rounds: (int, int))
    requires SessionOk(x, store, rounds) && x.Member(role).phase.Polling? && Present(x, store)
    ensures Present(PollOn(store, x, role), store)
  {
    hide SessionOk;
    PolledSame(x, store, role, rounds);
  }

  lemma TakeBringsPresent(x: Session, store: Store, role: Role, rounds: (int, int))
    requires SessionOk(x, store, rounds) && x.Member(role).phase.Taking?
    ensures Present(RefusedOn(x, role), store) && Present(TakeOn(store, x, role).1, TakeOn(store, x, role).0)
  {
    TakeKeepsParty(x.Member(role), x.Key(), x.log, Rounds(rounds, role));
    assert AllTaken(RefusedOn(x, role));
  }

  lemma SendBringsPresent(x: Session, store: Store, role: Role, nonce: int, time: string, rounds: (int, int))
    requires SessionOk(x, store, rounds) && x.Member(role).phase.Sending?
    ensures Present(SendOn(store, x, role, nonce, time).1, SendOn(store, x, role, nonce, time).0)
  {
    var (store', x') := SendOn(store, x, role, nonce, time);
    assert x'.Key() == x.Key() && Link(x'.Key(), x'.log, |x.log|) == Link(x.Key(), x.log, |x.log|);
    assert x.Member(role).directory == Link(x.Key(), x.log, |x.log|);
  }

  // ----- Whole runs -----

  /** A waiting party has polled at most eight times, and what it waits for is as many calls
      away as the other has not made of its three since the wait began. */
  ghost predicate Waits(x: Session, steps: seq<Step>, i: nat, role: Role, k: nat)
    requires k <= |steps|
  {
    x.Member(role).phase.Polling? ==> exists a :: WaitsSince(x, steps, i, role, a, k)
  }

  predicate WaitsSince(x: Session, steps: seq<Step>, i: nat, role: Role, a: nat, k: nat)
    requires k <= |steps| && x.Member(role).phase.Polling?
  {
    && a <= k && x.Member(role).phase.polls == Moves(steps, i, role, a, k) <= 8
    && (Need(x, role) == 0 || Need(x, role) + Moves(steps, i, Peer(role), a, k) <= 3)
  }

  ghost predicate GoesWell(x: Session, store: Store, steps: seq<Step>, i: nat, k: nat)
    requires k <= |steps|
  {
    Sound(x) && Present(x, store) && Waits(x, steps, i, Initiator, k) && Waits(x, steps, i, Contributor, k)
  }

  /** The schedule at one state: a party that has made eight calls has let the other make
      three, or that one has stopped. */
  ghost predicate FairAt(x: Session, steps: seq<Step>, i: nat, k: nat)
    requires k <= |steps|
  {
    forall role, a: nat | a <= k && Moves(steps, i, role, a, k) == 8 ::
      3 <= Moves(steps, i, Peer(role), a, k) || !x.Member(Peer(role)).Running()
  }

  /** After eight polls there is nothing more to wait for. */
  lemma EightAreEnough(
      x: Session, store: Store, steps: seq<Step>, i: nat, role: Role, k: nat, a: nat, rounds: (int, int))
    requires k <= |steps| && SessionOk(x, store, rounds) && rounds.0 == rounds.1 && Sound(x) && FairAt(x, steps, i, k)
    requires x.Member(role).phase.Polling? && WaitsSince(x, steps, i, role, a, k) && Need(x, role) != 0
    ensures x.Member(role).phase.polls < 8
  {
  }

  lemma OneMoreMove(steps: seq<Step>, i: nat, role: Role, a: nat, k: nat)
    requires a <= k < |steps|
    ensures Moves(steps, i, role, a, k + 1) == Moves(steps, i, role, a, k) + if IsMove(steps[k], i, role) then 1 else 0
  {
  }

  /** The other's wait, after one party's call. */
  lemma OtherWaits(x: Session, x': Session, steps: seq<Step>, i: nat, role: Role, k: nat)
    requires k < |steps| && IsMove(steps[k], i, role) && Waits(x, steps, i, Peer(role), k)
    requires x'.Member(Peer(role)) == x.Member(Peer(role))
    requires x.Member(Peer(role)).phase.Polling? ==> Nearer(x, x', Peer(role))
    ensures Waits(x', steps, i, Peer(role), k + 1)
  {
    if x.Member(Peer(role)).phase.Polling? {
      var a :| WaitsSince(x, steps, i, Peer(role), a, k);
      OneMoreMove(steps, i, role, a, k);
      OneMoreMove(steps, i, Peer(role), a, k);
      assert WaitsSince(x', steps, i, Peer(role), a, k + 1);
    }
  }

  lemma SameWaits(x: Session, x': Session, steps: seq<Step>, i: nat, role: Role, k: nat)
    requires k < |steps| && !IsMove(steps[k], i, Initiator) && !IsMove(steps[k], i, Contributor)
    requires Waits(x, steps, i, role, k) && x' == x
    ensures Waits(x', steps, i, role, k + 1)
  {
    if x.Member(role).phase.Polling? {
      var a :| WaitsSince(x, steps, i, role, a, k);
      OneMoreMove(steps, i, role, a, k);
      OneMoreMove(steps, i, Peer(role), a, k);
      assert WaitsSince(x', steps, i, role, a, k + 1);
    }
  }

  lemma BeginsToWait(x: Session, steps: seq<Step>, i: nat, role: Role, k: nat)
    requires k <= |steps|
    requires x.Member(role).phase.Polling? ==> x.Member(role).phase.polls == 0 && Need(x, role) <= 3
    ensures Waits(x, steps, i, role, k)
  {
    if x.Member(role).phase.Polling? {
      assert WaitsSince(x, steps, i, role, k, k);
    }
  }

  lemma PollGoesWell(x: Session, store: Store, steps: seq<Step>, i: nat, role: Role, k: nat, rounds: (int, int))
    requires k < |steps| && IsMove(steps[k], i, role) && FairAt(x, steps, i, k)
    requires SessionOk(x, store, rounds) && rounds.0 == rounds.1 && GoesWell(x, store, steps, i, k)
    requires x.Member(role).phase.Polling?
    ensures var x' := PollOn(store, x, role);
      Sound(x') && Waits(x', steps, i, role, k + 1) && Waits(x', steps, i, Peer(role), k + 1)
  {
    hide SessionOk, Present, PollOn;
    var x' := PollOn(store, x, role);
    assert Waits(x, steps, i, role, k) && Waits(x, steps, i, Peer(role), k);
    var a :| WaitsSince(x, steps, i, role, a, k);
    PollBrings(x, store, role, rounds);
    OtherWaits(x, x', steps, i, role, k);
    if x'.Member(role).phase.Polling? {
      EightAreEnough(x, store, steps, i, role, k, a, rounds);
      OneMoreMove(steps, i, role, a, k);
      OneMoreMove(steps, i, Peer(role), a, k);
      assert WaitsSince(x', steps, i, role, a, k + 1);
    }
  }

  lemma SendGoesWell(
      x: Session, store: Store, steps: seq<Step>, i: nat, role: Role, nonce: int, time: string, k: nat,
      rounds: (int, int))
    requires k < |steps| && IsMove(steps[k], i, role)
    requires SessionOk(x, store, rounds) && Sound(x) && x.Member(role).phase.Sending?
    requires Waits(x, steps, i, Peer(role), k)
    ensures var x' := SendOn(store, x, role, nonce, time).1;
      Sound(x') && Waits(x', steps, i, role, k + 1) && Waits(x', steps, i, Peer(role), k + 1)
  {
    hide SessionOk, Present, SendOn;
    var x' := SendOn(store, x, role, nonce, time).1;
    SendBrings(x, store, role, nonce, time, rounds);
    OtherWaits(x, x', steps, i, role, k);
    BeginsToWait(x', steps, i, role, k + 1);
  }

  lemma TakeGoesWell(x: Session, store: Store, steps: seq<Step>, i: nat, role: Role, k: nat, rounds: (int, int))
    requires k < |steps| && IsMove(steps[k], i, role)
    requires SessionOk(x, store, rounds) && Sound(x) && x.Member(role).phase.Taking?
    requires Waits(x, steps, i, Peer(role), k)
    ensures var x' := RefusedOn(x, role);
      Sound(x') && Waits(x', steps, i, role, k + 1) && Waits(x', steps, i, Peer(role), k + 1)
  {
    hide SessionOk, Present;
    var x' := RefusedOn(x, role);
    TakeBrings(x, store, role, rounds);
    OtherWaits(x, x', steps, i, role, k);
    BeginsToWait(x', steps, i, role, k + 1);
  }

  lemma MoveGoesWell(s: State, steps: seq<Step>, i: nat, role: Role, k: nat, rounds: seq<(int, int)>)
    requires k < |steps| && IsMove(steps[k], i, role) && Inv(s, rounds) && Enabled(s, steps[k]) && i < |rounds|
    requires FairAt(s.sessions[i], steps, i, k) && rounds[i].0 == rounds[i].1
    requires GoesWell(s.sessions[i], s.store, steps, i, k)
    ensures GoesWell(Next(s, steps[k]).sessions[i], Next(s, steps[k]).store, steps, i, k + 1)
  {
    hide SessionOk, Present, Waits, Sound, SendOn, PollOn;
    var x, step := s.sessions[i], steps[k];
    var (nonce, time) := if step.Act? then (step.nonce, step.time) else (0, "");
    BringsPresent(x, s.store, role, nonce, time, rounds[i]);
    if x.Member(role).phase.Sending? {
      SendGoesWell(x, s.store, steps, i, role, nonce, time, k, rounds[i]);
    } else if x.Member(role).phase.Polling? {
      PollGoesWell(x, s.store, steps, i, role, k, rounds[i]);
    } else {
      TakeGoesWell(x, s.store, steps, i, role, k, rounds[i]);
      TakeBringsPresent(x, s.store, role, rounds[i]);
    }
  }

  lemma OtherStepGoesWell(s: State, steps: seq<Step>, i: nat, k: nat, rounds: seq<(int, int)>)
    requires k < |steps| && Inv(s, rounds) && Enabled(s, steps[k]) && i < |rounds| && i < |s.sessions|
    requires !IsMove(steps[k], i, Initiator) && !IsMove(steps[k], i, Contributor)
    requires Harmless(s, steps[k], i)
    requires GoesWell(s.sessions[i], s.store, steps, i, k)
    ensures GoesWell(Next(s, steps[k]).sessions[i], Next(s, steps[k]).store, steps, i, k + 1)
  {
    hide SessionOk, Present, Waits, Inv, Next, Enabled;
    OtherStepSame(s, steps[k], i, rounds);
    SameWaits(s.sessions[i], s.sessions[i], steps, i, Initiator, k);
    SameWaits(s.sessions[i], s.sessions[i], steps, i, Contributor, k);
    OtherStepPresent(s, steps[k], i, rounds);
  }

  lemma OtherStepPresent(s: State, step: Step, i: nat, rounds: seq<(int, int)>)
    requires Inv(s, rounds) && Enabled(s, step) && i < |rounds|
    requires !IsMove(step, i, Initiator) && !IsMove(step, i, Contributor)
    requires Harmless(s, step, i) && Present(s.sessions[i], s.store)
    ensures Present(s.sessions[i], Next(s, step).store)
  {
    hide SessionOk, ActOn, Drop, List;
    var x := s.sessions[i];
    if !step.Expire? && x.log != [] {
      LastLinkIsOwn(x, s.store, rounds[i]);
      NotItsMove(step, i);
      StepElsewhere(s, step, rounds, i, Link(x.Key(), x.log, |x.log| - 1));
    }
  }

  lemma NotItsMove(step: Step, i: nat)
    requires !IsMove(step, i, Initiator) && !IsMove(step, i, Contributor)
    ensures (step.Act? || step.Refused?) ==> step.session != i
  {
    if step.Act? || step.Refused? {
      assert step.role == Initiator || step.role == Contributor;
    }
  }

  lemma LastLinkIsOwn(x: Session, store: Store, rounds: (int, int))
    requires SessionOk(x, store, rounds) && x.log != []
    ensures Exchange(x.Key(), Link(x.Key(), x.log, |x.log| - 1))
  {
    if |x.log| > 1 {
      assert IsPayload(x.log[|x.log| - 2], x.Key(), |x.log| - 2);
    }
  }

  lemma OtherStepSame(s: State, step: Step, i: nat, rounds: seq<(int, int)>)
    requires Inv(s, rounds) && Enabled(s, step) && i < |rounds|
    requires !IsMove(step, i, Initiator) && !IsMove(step, i, Contributor) && !(step.Abort? && step.session == i)
    ensures i < |Next(s, step).sessions| && Next(s, step).sessions[i] == s.sessions[i]
  {
    NotItsMove(step, i);
  }

  lemma InitialGoesWell(s: State, steps: seq<Step>, pairs: seq<Pair>, i: nat)
    requires Initial(s, pairs) && i < |pairs| && |s.sessions| == |pairs|
    ensures GoesWell(s.sessions[i], s.store, steps, i, 0)
  {
    var x := s.sessions[i];
    BeginsToWait(x, steps, i, Initiator, 0);
    BeginsToWait(x, steps, i, Contributor, 0);
  }

  lemma StepGoesWell(s: State, steps: seq<Step>, i: nat, k: nat, rounds: seq<(int, int)>)
    requires k < |steps| && Inv(s, rounds) && Enabled(s, steps[k]) && i < |rounds| && i < |s.sessions|
    requires FairAt(s.sessions[i], steps, i, k) && rounds[i].0 == rounds[i].1
    requires Harmless(s, steps[k], i) && GoesWell(s.sessions[i], s.store, steps, i, k)
    ensures i < |Next(s, steps[k]).sessions|
    ensures GoesWell(Next(s, steps[k]).sessions[i], Next(s, steps[k]).store, steps, i, k + 1)
  {
    hide GoesWell, Inv, Enabled, Next, FairAt;
    StepKeepsKey(s, steps[k], rounds, i);
    if IsMove(steps[k], i, Initiator) {
      MoveGoesWell(s, steps, i, Initiator, k, rounds);
    } else if IsMove(steps[k], i, Contributor) {
      MoveGoesWell(s, steps, i, Contributor, k, rounds);
    } else {
      OtherStepGoesWell(s, steps, i, k, rounds);
    }
  }

  /** In every run with a fair schedule in which no call of the pair fails and nothing of
      theirs expires before it is taken, two parties that were started with the same number of
      rounds never give up, whatever all others do. */
  lemma {:induction false} NeverGivesUp(states: seq<State>, steps: seq<Step>, pairs: seq<Pair>, k: nat, i: nat)
    requires IsRun(states, steps) && Initial(states[0], pairs) && k <= |steps| && i < |pairs|
    requires pairs[i].rounds.0 == pairs[i].rounds.1
    requires Untroubled(states, steps, i) && Fair(states, steps, i)
    ensures |states[k].sessions| == |pairs| && Sound(states[k].sessions[i])
    ensures GoesWell(states[k].sessions[i], states[k].store, steps, i, k)
  {
    hide Inv, Next, Enabled, Initial, Waits, Present;
    KeysStay(states, steps, pairs, k, i);
    if k == 0 {
      InitialGoesWell(states[0], steps, pairs, i);
    } else {
      NeverGivesUp(states, steps, pairs, k - 1, i);
      RunInv(states, steps, pairs, k - 1);
      KeysStay(states, steps, pairs, k - 1, i);
      assert FairAt(states[k - 1].sessions[i], steps, i, k - 1);
      StepGoesWell(states[k - 1], steps, i, k - 1, RoundsOf(pairs));
    }
  }

  /** So once it has stopped, which it does after boundedly many calls, it has had all its
      rounds: each has received, in order, all that the other has sent. */
  lemma FairPairSucceeds(states: seq<State>, steps: seq<Step>, pairs: seq<Pair>, k: nat, i: nat)
    requires IsRun(states, steps) && Initial(states[0], pairs) && k <= |steps| && i < |pairs|
    requires pairs[i].rounds.0 == pairs[i].rounds.1
    requires Untroubled(states, steps, i) && Fair(states, steps, i)
    requires i < |states[k].sessions|
    requires !states[k].sessions[i].initiator.Running() && !states[k].sessions[i].contributor.Running()
    ensures var (x, n) := (states[k].sessions[i], AtLeastZero(pairs[i].rounds.0));
      && |x.log| == 2 * n && |x.initiator.received| == |x.contributor.received| == n
      && x.initiator.received == Sent(x.log, Contributor) && x.contributor.received == Sent(x.log, Initiator)
  {
    RunInv(states, steps, pairs, k);
    NeverGivesUp(states, steps, pairs, k, i);
    FinishedTogether(states[k].sessions[i], states[k].store, pairs[i].rounds);
  }
}
