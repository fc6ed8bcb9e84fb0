/** Whole runs of the rendezvous over the directory: each is a run of the rendezvous with three
    steps for every one; what is safe there is safe here; and payloads that are taken within
    their TTL never expire, so that under a fair schedule a pair succeeds. */
module TimedRuns {
  import T = TimedStore
  import L = Lifetimes
  import opened Wrappers
  import opened Rendezvous
  import opened Progress
  import opened TimedRendezvous

  // ----- The run of the rendezvous -----

  /** At `3 * k` stands what the timed run has after `k` steps: an expiry, the step, an
      expiry. */
  ghost predicate Block(
      name: Naming, t: TimedState, t': TimedState, tstep: TimedStep, states: seq<State>, steps: seq<Step>, b: nat)
    requires b + 3 < |states| == |steps| + 1
  {
    && (tstep.Call? ==> InRange(tstep.step, t.sessions))
    && steps[b] == Expire(states[b + 1].store) && steps[b + 2] == Expire(states[b + 3].store)
    && steps[b + 1] == Untimed(tstep, states[b + 1].store)
    && states[b].sessions == states[b + 1].sessions == t.sessions
    && states[b + 2].sessions == states[b + 3].sessions == t'.sessions
    && Shows(name, FoundBy(name, t, tstep), states[b + 1].store)
  }

  /** The states and steps are the timed run's, three steps for each of its first `n`. */
  ghost predicate Unrolled(
      name: Naming, tstates: seq<TimedState>, tsteps: seq<TimedStep>, n: nat, states: seq<State>, steps: seq<Step>)
    requires IsTimedRun(name, tstates, tsteps) && n <= |tsteps|
  {
    && IsRun(states, steps) && |steps| == 3 * n
    && (forall k | 0 <= k <= n :: Mirrors(name, tstates[k], states[3 * k]))
    && (forall k | 0 <= k < n :: Block(name, tstates[k], tstates[k + 1], tsteps[k], states, steps, 3 * k))
  }

  lemma {:induction false} Unroll(name: Naming, tstates: seq<TimedState>, tsteps: seq<TimedStep>, n: nat, s: State)
      returns (states: seq<State>, steps: seq<Step>)
    requires Injective(name) && IsTimedRun(name, tstates, tsteps) && n <= |tsteps| && Mirrors(name, tstates[0], s)
    ensures Unrolled(name, tstates, tsteps, n, states, steps) && states[0] == s
  {
    if n == 0 {
      states, steps := [s], [];
    } else {
      states, steps := Unroll(name, tstates, tsteps, n - 1, s);
      var b := 3 * (n - 1);
      assert Mirrors(name, tstates[n - 1], states[b]);
      var s1, step, s2, s3 := StepSimulated(name, tstates[n - 1], tstates[n], tsteps[n - 1], states[b]);
      assert TimedNext(name, tstates[n - 1], tstates[n], tsteps[n - 1]);
      states, steps := ThreeMore(name, tstates, tsteps, n, states, steps, s1, step, s2, s3);
    }
  }

  lemma ThreeMore(
      name: Naming, tstates: seq<TimedState>, tsteps: seq<TimedStep>, n: nat, before: seq<State>, made: seq<Step>,
      s1: State, step: Step, s2: State, s3: State)
      returns (states: seq<State>, steps: seq<Step>)
    requires IsTimedRun(name, tstates, tsteps) && 0 < n <= |tsteps|
    requires Unrolled(name, tstates, tsteps, n - 1, before, made)
    requires tsteps[n - 1].Call? ==> InRange(tsteps[n - 1].step, tstates[n - 1].sessions)
    requires var s := before[3 * (n - 1)];
      && Enabled(s, Expire(s1.store)) && s1 == Next(s, Expire(s1.store))
      && Enabled(s1, step) && s2 == Next(s1, step)
      && Enabled(s2, Expire(s3.store)) && s3 == Next(s2, Expire(s3.store))
      && step == Untimed(tsteps[n - 1], s1.store)
      && s1.sessions == tstates[n - 1].sessions && s2.sessions == tstates[n].sessions
      && Shows(name, FoundBy(name, tstates[n - 1], tsteps[n - 1]), s1.store) && Mirrors(name, tstates[n], s3)
    ensures Unrolled(name, tstates, tsteps, n, states, steps) && states[0] == before[0]
  {
    hide Enabled, Next, Mirrors, Shows, FoundBy, TimedNext;
    states := before + [s1, s2, s3];
    steps := made + [Expire(s1.store), step, Expire(s3.store)];
    var b := 3 * (n - 1);
    forall k | 0 <= k < |steps| ensures Enabled(states[k], steps[k]) && states[k + 1] == Next(states[k], steps[k]) {
      if k < b {
        assert states[k] == before[k] && states[k + 1] == before[k + 1] && steps[k] == made[k];
      }
    }
    forall k | 0 <= k <= n ensures Mirrors(name, tstates[k], states[3 * k]) {
      if k < n {
        assert states[3 * k] == before[3 * k];
      }
    }
    forall k | 0 <= k < n ensures Block(name, tstates[k], tstates[k + 1], tsteps[k], states, steps, 3 * k) {
      if k < n - 1 {
        assert Block(name, tstates[k], tstates[k + 1], tsteps[k], before, made, 3 * k);
      } else {
        SessionsMirrored(name, tstates[n - 1], before[b]);
        SessionsMirrored(name, tstates[n], s3);
      }
    }
  }

  lemma SessionsMirrored(name: Naming, t: TimedState, s: State)
    requires Mirrors(name, t, s)
    ensures s.sessions == t.sessions
  {
  }

  /** All pairs start, and the directory shows nothing under their names. */
  ghost predicate TimedInitial(name: Naming, t: TimedState, s: State, pairs: seq<Pair>) {
    Mirrors(name, t, s) && Initial(s, pairs) && L.Distinct(t.store)
  }

  /** Over the directory, whatever its clocks do and whatever it drops, the rendezvous is as
      safe as over the store of terms: both ends are on one chain, at most one link apart;
      under the names of a pair's directories nothing is held but the one payload; and what
      each has decrypted is a prefix of what the other has sent. */
  lemma TimedSafety(
      name: Naming, tstates: seq<TimedState>, tsteps: seq<TimedStep>, s: State, pairs: seq<Pair>,
      k: nat, i: nat, d: Term)
    requires Injective(name) && IsTimedRun(name, tstates, tsteps) && TimedInitial(name, tstates[0], s, pairs)
    requires k <= |tsteps| && i < |pairs|
    ensures |tstates[k].sessions| == |pairs|
    ensures var x := tstates[k].sessions[i];
      && x.Key() == pairs[i].Begin().Key()
      && -1 <= x.initiator.position - x.contributor.position <= 1
      && x.initiator.position <= |x.log| && x.initiator.directory == Link(x.Key(), x.log, x.initiator.position)
      && x.contributor.position <= |x.log| && x.contributor.directory == Link(x.Key(), x.log, x.contributor.position)
      && Meets(x.initiator, x.contributor) && Meets(x.contributor, x.initiator)
      && (Exchange(x.Key(), d) ==> |Held(tstates[k].store, name(d))| <= 1)
      && x.initiator.received <= Sent(x.log, Contributor)
      && x.contributor.received <= Sent(x.log, Initiator)
  {
    hide Initial, Enabled, Next, Block, Link, Meets, Sent;
    var states, steps := Unroll(name, tstates, tsteps, |tsteps|, s);
    EveryReachableSession(states, steps, pairs, 3 * k, i);
    assert Mirrors(name, tstates[k], states[3 * k]);
    assert Held(tstates[k].store, name(d)) == Names(name, List(states[3 * k].store, d));
  }

  /** In every run a party that polls goes by the very answer of the directory to its List,
      read as terms; and the payload that it takes is the last value of that answer. */
  lemma EveryPollReadsItsAnswer(
      name: Naming, tstates: seq<TimedState>, tsteps: seq<TimedStep>, s: State, pairs: seq<Pair>, k: nat)
      returns (answer: seq<Term>)
    requires Injective(name) && IsTimedRun(name, tstates, tsteps) && TimedInitial(name, tstates[0], s, pairs)
    requires k < |tsteps| && tsteps[k].Call? && IsPoll(tstates[k].sessions, tsteps[k].step)
    ensures var (i, role) := (tsteps[k].step.session, tsteps[k].step.role);
      var p := tstates[k].sessions[i].Member(role);
      var listed := T.List(tstates[k].store, name(p.directory), tsteps[k].clock).1;
      && listed == T.Listed(Names(name, answer))
      && i < |tstates[k + 1].sessions| && tstates[k + 1].sessions[i].Member(role) == Poll(p, answer)
      && (Poll(p, answer).phase.Taking? ==>
            listed.values != [] && name(Poll(p, answer).payload) == listed.values[|listed.values| - 1])
  {
    hide TimedInitial, TimedNext, Injective, T.List, Poll, Names;
    var (i, role) := (tsteps[k].step.session, tsteps[k].step.role);
    KeepsItsRole(name, tstates, tsteps, s, pairs, k, i, role);
    assert TimedNext(name, tstates[k], tstates[k + 1], tsteps[k]);
    answer := PollReadsAnswer(name, tstates[k], tstates[k + 1], tsteps[k]);
    TakesTheLast(name, tstates[k].sessions[i].Member(role), answer);
  }

  lemma KeepsItsRole(
      name: Naming, tstates: seq<TimedState>, tsteps: seq<TimedStep>, s: State, pairs: seq<Pair>,
      k: nat, i: nat, role: Role)
    requires Injective(name) && IsTimedRun(name, tstates, tsteps) && TimedInitial(name, tstates[0], s, pairs)
    requires k <= |tsteps| && i < |tstates[k].sessions|
    ensures tstates[k].sessions[i].Member(role).role == role
  {
    hide Initial, Enabled, Next, Shows, Block;
    var states, steps := Unroll(name, tstates, tsteps, |tsteps|, s);
    RunInv(states, steps, pairs, 3 * k);
    assert Mirrors(name, tstates[k], states[3 * k]);
  }

  lemma TakesTheLast(name: Naming, p: Party, answer: seq<Term>)
    requires p.phase.Polling?
    ensures Poll(p, answer).phase.Taking? ==>
              answer != [] && name(Poll(p, answer).payload) == Names(name, answer)[|answer| - 1]
  {
  }

  // ----- The schedule -----

  function CallsOf(tsteps: seq<TimedStep>): (steps: seq<Step>)
    ensures |steps| == |tsteps|
  {
    seq(|tsteps|, k requires 0 <= k < |tsteps| => Untimed(tsteps[k], map[]))
  }

  /** Wherever one of the two makes eight calls, the other makes three, or has stopped. */
  ghost predicate TimedFair(tstates: seq<TimedState>, tsteps: seq<TimedStep>, i: nat)
    requires |tstates| == |tsteps| + 1
  {
    forall role, a: nat, b: nat |
      a <= b <= |tsteps| && Moves(CallsOf(tsteps), i, role, a, b) == 8 && i < |tstates[b].sessions| ::
      3 <= Moves(CallsOf(tsteps), i, Peer(role), a, b) || !tstates[b].sessions[i].Member(Peer(role)).Running()
  }

  lemma UnrolledStep(
      name: Naming, tstates: seq<TimedState>, tsteps: seq<TimedStep>, states: seq<State>, steps: seq<Step>, b: nat)
    requires IsTimedRun(name, tstates, tsteps) && Unrolled(name, tstates, tsteps, |tsteps|, states, steps)
    requires b < |steps|
    ensures b / 3 < |tsteps| && (b % 3 != 1 ==> steps[b].Expire?)
    ensures b % 3 == 1 ==> steps[b] == Untimed(tsteps[b / 3], states[b].store)
    ensures states[b].sessions == tstates[(b + 1) / 3].sessions
  {
    hide Mirrors, Shows;
    assert |states| == |steps| + 1 && |steps| == 3 * |tsteps|;
    var k := b / 3;
    assert Block(name, tstates[k], tstates[k + 1], tsteps[k], states, steps, 3 * k);
    assert b == 3 * k || b == 3 * k + 1 || b == 3 * k + 2;
    assert (b + 1) / 3 == if b == 3 * k + 2 then k + 1 else k;
  }

  lemma {:induction false} UnrolledMoves(
      name: Naming, tstates: seq<TimedState>, tsteps: seq<TimedStep>, states: seq<State>, steps: seq<Step>,
      i: nat, role: Role, a: nat, b: nat)
    requires IsTimedRun(name, tstates, tsteps) && Unrolled(name, tstates, tsteps, |tsteps|, states, steps)
    requires b <= |steps|
    ensures Moves(steps, i, role, a, b) == Moves(CallsOf(tsteps), i, role, (a + 1) / 3, (b + 1) / 3)
  {
    hide IsTimedRun, Unrolled;
    if a < b {
      UnrolledMoves(name, tstates, tsteps, states, steps, i, role, a, b - 1);
      UnrolledStep(name, tstates, tsteps, states, steps, b - 1);
      if (b - 1) % 3 == 1 {
        assert CallsOf(tsteps)[(b - 1) / 3] == Untimed(tsteps[(b - 1) / 3], map[]);
        assert (b + 1) / 3 == b / 3 + 1 == (b - 1) / 3 + 1 && (a + 1) / 3 <= b / 3;
      } else {
        assert (b + 1) / 3 == b / 3;
      }
    }
  }

  lemma UnrolledFair(
      name: Naming, tstates: seq<TimedState>, tsteps: seq<TimedStep>, states: seq<State>, steps: seq<Step>, i: nat)
    requires IsTimedRun(name, tstates, tsteps) && Unrolled(name, tstates, tsteps, |tsteps|, states, steps)
    requires TimedFair(tstates, tsteps, i)
    ensures Fair(states, steps, i)
  {
    hide IsTimedRun;
    forall role, a: nat, b: nat | a <= b <= |steps| && Moves(steps, i, role, a, b) == 8 && i < |states[b].sessions|
      ensures 3 <= Moves(steps, i, Peer(role), a, b) || !states[b].sessions[i].Member(Peer(role)).Running()
    {
      UnrolledMoves(name, tstates, tsteps, states, steps, i, role, a, b);
      UnrolledMoves(name, tstates, tsteps, states, steps, i, Peer(role), a, b);
      SessionsAt(name, tstates, tsteps, states, steps, b);
    }
  }

  lemma SessionsAt(
      name: Naming, tstates: seq<TimedState>, tsteps: seq<TimedStep>, states: seq<State>, steps: seq<Step>, b: nat)
    requires IsTimedRun(name, tstates, tsteps) && Unrolled(name, tstates, tsteps, |tsteps|, states, steps)
    requires b <= |steps|
    ensures states[b].sessions == tstates[(b + 1) / 3].sessions
  {
    if b < |steps| {
      UnrolledStep(name, tstates, tsteps, states, steps, b);
    } else {
      assert b == 3 * |tsteps| && (b + 1) / 3 == |tsteps|;
      assert Mirrors(name, tstates[|tsteps|], states[3 * |tsteps|]);
    }
  }

  // ----- Payloads in time -----

  /** The entry expires one minute after it was sent, and its list is held at least as long. */
  predicate FreshEntry(s: T.Store, key: string, value: string, sentAt: int) {
    key in s && L.Has(s, key, value, T.Truncated(sentAt) + T.MINUTE) && sentAt + T.MINUTE <= s[key].deadline
  }

  lemma FreshStays(s: T.Store, e: T.Event, key: string, value: string, sentAt: int)
    requires L.Distinct(s) && FreshEntry(s, key, value, sentAt)
    requires L.Accepted(e) && e.clock <= T.Truncated(sentAt) + T.MINUTE && (e.EList? || e.key != key)
    ensures FreshEntry(T.Apply(s, e).0, key, value, sentAt)
  {
    L.ApplyHas(s, e, key, value, T.Truncated(sentAt) + T.MINUTE);
    if !L.Touches(e, key) {
      L.ApplyElsewhere(s, e, key);
    }
  }

  lemma FreshAdded(s: T.Store, key: string, value: string, clock: int)
    requires L.Distinct(s) && key != "" && value != ""
    ensures FreshEntry(T.Apply(s, T.EAdd(key, value, T.MINUTE, clock)).0, key, value, clock)
  {
    L.ApplyHas(s, T.EAdd(key, value, T.MINUTE, clock), key, value, T.Truncated(clock) + T.MINUTE);
  }

  /** The directory to which the last payload was sent. */
  function LastDirectory(x: Session): Term
    requires x.log != []
  {
    Link(x.Key(), x.log, |x.log| - 1)
  }

  /** What one has sent and the other not yet taken was sent at that instant, and is held. */
  ghost predicate Fresh(name: Naming, s: T.Store, x: Session, sentAt: int) {
    x.log != [] && !AllTaken(x) ==> FreshEntry(s, name(LastDirectory(x)), name(x.log[|x.log| - 1]), sentAt)
  }

  predicate IsSending(t: TimedState, tstep: TimedStep, i: nat) {
    && tstep.Call? && tstep.step.Act? && tstep.step.session == i < |t.sessions|
    && t.sessions[i].Member(tstep.step.role).phase.Sending?
  }

  /** When the pair's last payload was sent. */
  function SentAt(tstates: seq<TimedState>, tsteps: seq<TimedStep>, i: nat, k: nat): int
    requires k <= |tsteps| && |tstates| == |tsteps| + 1
  {
    if k == 0 then 0
    else if IsSending(tstates[k - 1], tsteps[k - 1], i) then tsteps[k - 1].clock
    else SentAt(tstates, tsteps, i, k - 1)
  }

  /** A step by whose clock a payload of the pair that has not been taken has not reached its
      TTL, and which neither drops it nor is a failed call of theirs.  Their own Adds have the
      TTL of "short". */
  ghost predicate InTime(name: Naming, t: TimedState, tstep: TimedStep, i: nat, sentAt: int)
    requires i < |t.sessions|
  {
    var x := t.sessions[i];
    && (tstep.Call? ==> !(tstep.step.Abort? && tstep.step.session == i))
    && (IsSending(t, tstep, i) ==> tstep.ttl == T.MINUTE)
    && (x.log != [] && !AllTaken(x) ==>
          if tstep.Drops? then name(LastDirectory(x)) !in tstep.keys
          else tstep.clock <= T.Truncated(sentAt) + T.MINUTE)
  }

  lemma FoundIsFresh(name: Naming, t: TimedState, tstep: TimedStep, i: nat, sentAt: int)
    requires tstep.Call? ==> InRange(tstep.step, t.sessions)
    requires i < |t.sessions| && Fresh(name, t.store, t.sessions[i], sentAt) && InTime(name, t, tstep, i, sentAt)
    ensures Fresh(name, FoundBy(name, t, tstep), t.sessions[i], sentAt)
  {
    AskedClock(name, t, tstep);
  }

  lemma AskedClock(name: Naming, t: TimedState, tstep: TimedStep)
    requires tstep.Call? ==> InRange(tstep.step, t.sessions)
    ensures var asked := Asked(name, t.sessions, tstep);
      asked.Some? ==> !tstep.Drops? && asked.value.event.clock == tstep.clock
  {
  }

  lemma FreshIsPresent(name: Naming, s: T.Store, r: Store, x: Session, sentAt: int)
    requires Fresh(name, s, x, sentAt) && Shows(name, s, r)
    ensures Present(x, r)
  {
    if x.log != [] && !AllTaken(x) {
      var d := LastDirectory(x);
      assert Held(s, name(d)) == Names(name, List(r, d));
      assert T.Lookup(s, name(d)).entries != [];
      assert |Held(s, name(d))| > 0;
    }
  }

  /** A step that asks for nothing under the name of the last directory, but at most a List. */
  predicate Spares(name: Naming, t: TimedState, tstep: TimedStep, d: Term)
    requires tstep.Call? ==> InRange(tstep.step, t.sessions)
  {
    var asked := Asked(name, t.sessions, tstep);
    asked.Some? ==> asked.value.event.EList? || asked.value.directory != d
  }

  lemma SparedStaysFresh(name: Naming, t: TimedState, tstep: TimedStep, i: nat, sentAt: int)
    requires Injective(name) && L.Distinct(t.store)
    requires tstep.Call? ==> InRange(tstep.step, t.sessions) && T.SECOND <= tstep.ttl
    requires i < |t.sessions| && Fresh(name, t.store, t.sessions[i], sentAt) && InTime(name, t, tstep, i, sentAt)
    requires t.sessions[i].log != [] ==> Spares(name, t, tstep, LastDirectory(t.sessions[i]))
    ensures Fresh(name, StoreAfter(name, t, tstep), t.sessions[i], sentAt)
  {
    hide Asked, T.Apply, FreshEntry;
    var x := t.sessions[i];
    if x.log != [] && !AllTaken(x) {
      var (key, value) := (name(LastDirectory(x)), name(x.log[|x.log| - 1]));
      if tstep.Drops? {
        DroppedStaysFresh(t.store, tstep.keys, key, value, sentAt);
      } else if Asked(name, t.sessions, tstep).Some? {
        AskedClock(name, t, tstep);
        AskedIsOn(name, t.sessions, tstep);
        FreshStays(t.store, Asked(name, t.sessions, tstep).value.event, key, value, sentAt);
      }
    }
  }

  lemma DroppedStaysFresh(s: T.Store, keys: set<string>, key: string, value: string, sentAt: int)
    requires FreshEntry(s, key, value, sentAt) && key !in keys
    ensures FreshEntry(s - keys, key, value, sentAt)
  {
  }

  /** Everybody but the pair itself spares its last directory. */
  lemma OthersSpare(name: Naming, t: TimedState, tstep: TimedStep, s: State, i: nat, rounds: seq<(int, int)>)
    requires Inv(s, rounds) && i < |rounds| && s.sessions == t.sessions && t.sessions[i].log != []
    requires tstep.Call? ==>
               && InRange(tstep.step, t.sessions) && Enabled(s, tstep.step)
               && !IsMove(tstep.step, i, Initiator) && !IsMove(tstep.step, i, Contributor)
    ensures Spares(name, t, tstep, LastDirectory(t.sessions[i]))
  {
    var x := t.sessions[i];
    LastLinkIsOwn(x, s.store, rounds[i]);
    if tstep.Call? && tstep.step.Act? {
      var j, role := tstep.step.session, tstep.step.role;
      NotItsMove(tstep.step, i);
      WaitsAtTheEnd(t.sessions[j], s.store, role, rounds[j]);
      OwnDirectory(t.sessions[j], s.store, role, rounds[j]);
      if t.sessions[j].Member(role).directory == LastDirectory(x) {
        KeysApart(x.Key(), t.sessions[j].Key(), LastDirectory(x));
        assert false;
      }
    }
  }

  lemma OwnDirectory(x: Session, store: Store, role: Role, rounds: (int, int))
    requires SessionOk(x, store, rounds)
    ensures Exchange(x.Key(), x.Member(role).directory) && x.Key().Shared?
  {
    var p := x.Member(role);
    assert PartyOk(p, role, x.Key(), x.log, Rounds(rounds, role));
    if p.position > 0 {
      assert IsPayload(x.log[p.position - 1], x.Key(), p.position - 1);
    }
  }

  lemma SentIsFresh(
      name: Naming, t: TimedState, tstep: TimedStep, s: State, i: nat, sentAt: int, rounds: seq<(int, int)>)
    requires Injective(name) && L.Distinct(t.store) && Inv(s, rounds) && i < |rounds| && s.sessions == t.sessions
    requires IsSending(t, tstep, i) && InTime(name, t, tstep, i, sentAt)
    ensures var step := tstep.step;
      var x' := SendOn(s.store, t.sessions[i], step.role, step.nonce, step.time).1;
      Fresh(name, StoreAfter(name, t, tstep), x', tstep.clock)
  {
    var step, x := tstep.step, t.sessions[i];
    var p := x.Member(step.role);
    var x' := SendOn(s.store, x, step.role, step.nonce, step.time).1;
    var payload := Send(p, step.nonce, step.time).payload;
    WaitsAtTheEnd(x, s.store, step.role, rounds[i]);
    assert SessionOk(x, s.store, rounds[i]) && p.position == |x.log|;
    assert x'.log == x.log + [payload] && x'.Key() == x.Key() && LastDirectory(x') == p.directory;
    FreshAdded(t.store, name(p.directory), name(payload), tstep.clock);
  }

  lemma MovedStaysFresh(
      name: Naming, t: TimedState, tstep: TimedStep, s: State, i: nat, role: Role, sentAt: int, rounds: seq<(int, int)>)
    requires Injective(name) && L.Distinct(t.store) && Inv(s, rounds) && i < |rounds| && s.sessions == t.sessions
    requires tstep.Call? && InRange(tstep.step, t.sessions) && T.SECOND <= tstep.ttl && Enabled(s, tstep.step)
    requires IsMove(tstep.step, i, role) && !IsSending(t, tstep, i)
    requires Fresh(name, t.store, t.sessions[i], sentAt) && InTime(name, t, tstep, i, sentAt)
    ensures i < |Next(s, tstep.step).sessions|
    ensures Fresh(name, StoreAfter(name, t, tstep), Next(s, tstep.step).sessions[i], sentAt)
  {
    hide SessionOk, InTime, StoreAfter;
    var x := t.sessions[i];
    if x.Member(role).phase.Polling? {
      SparedStaysFresh(name, t, tstep, i, sentAt);
      PolledSame(x, s.store, role, rounds[i]);
    } else {
      TakenIsTaken(x, s.store, role, rounds[i]);
    }
  }

  lemma TakenIsTaken(x: Session, store: Store, role: Role, rounds: (int, int))
    requires SessionOk(x, store, rounds) && x.Member(role).phase.Taking?
    ensures AllTaken(RefusedOn(x, role)) && TakeOn(store, x, role).1 == RefusedOn(x, role)
  {
    TakeKeepsParty(x.Member(role), x.Key(), x.log, Rounds(rounds, role));
  }

  /** One step in time: what has been sent and not yet taken stays fresh. */
  lemma StaysFresh(
      name: Naming, t: TimedState, tstep: TimedStep, s: State, i: nat, sentAt: int, rounds: seq<(int, int)>)
    requires Injective(name) && L.Distinct(t.store) && Inv(s, rounds) && i < |rounds| && s.sessions == t.sessions
    requires tstep.Call? ==>
               InRange(tstep.step, t.sessions) && !tstep.step.Expire? && T.SECOND <= tstep.ttl && Enabled(s, tstep.step)
    requires Fresh(name, t.store, t.sessions[i], sentAt) && InTime(name, t, tstep, i, sentAt)
    ensures var sessions := if tstep.Call? then Next(s, tstep.step).sessions else t.sessions;
      i < |sessions|
      && Fresh(name, StoreAfter(name, t, tstep), sessions[i], if IsSending(t, tstep, i) then tstep.clock else sentAt)
  {
    hide Fresh, StoreAfter, SendOn, SessionOk;
    if IsSending(t, tstep, i) {
      SentIsFresh(name, t, tstep, s, i, sentAt, rounds);
    } else if tstep.Call? && IsMove(tstep.step, i, Initiator) {
      MovedStaysFresh(name, t, tstep, s, i, Initiator, sentAt, rounds);
    } else if tstep.Call? && IsMove(tstep.step, i, Contributor) {
      MovedStaysFresh(name, t, tstep, s, i, Contributor, sentAt, rounds);
    } else {
      if t.sessions[i].log != [] {
        OthersSpare(name, t, tstep, s, i, rounds);
      }
      SparedStaysFresh(name, t, tstep, i, sentAt);
      if tstep.Call? {
        OtherStepSame(s, tstep.step, i, rounds);
      }
    }
  }

  // ----- Success -----

  /** Every step of the run is in time for the pair. */
  ghost predicate AllInTime(name: Naming, tstates: seq<TimedState>, tsteps: seq<TimedStep>, i: nat)
    requires |tstates| == |tsteps| + 1
  {
    forall k | 0 <= k < |tsteps| && i < |tstates[k].sessions| ::
      InTime(name, tstates[k], tsteps[k], i, SentAt(tstates, tsteps, i, k))
  }

  lemma {:induction false} StaysDistinct(name: Naming, tstates: seq<TimedState>, tsteps: seq<TimedStep>, k: nat)
    requires IsTimedRun(name, tstates, tsteps) && L.Distinct(tstates[0].store) && k <= |tsteps|
    ensures L.Distinct(tstates[k].store)
  {
    hide L.Distinct, T.Apply, Asked;
    if k != 0 {
      StaysDistinct(name, tstates, tsteps, k - 1);
      var t, tstep := tstates[k - 1], tsteps[k - 1];
      assert TimedNext(name, t, tstates[k], tstep);
      if tstep.Drops? {
        DroppedDistinct(t.store, tstep.keys);
      } else if Asked(name, t.sessions, tstep).Some? {
        L.ApplyDistinct(t.store, Asked(name, t.sessions, tstep).value.event);
      }
    }
  }

  lemma DroppedDistinct(s: T.Store, keys: set<string>)
    requires L.Distinct(s)
    ensures L.Distinct(s - keys)
  {
  }

  lemma {:induction false} RunStaysFresh(
      name: Naming, tstates: seq<TimedState>, tsteps: seq<TimedStep>, states: seq<State>, steps: seq<Step>,
      pairs: seq<Pair>, i: nat, k: nat)
    requires Injective(name) && IsTimedRun(name, tstates, tsteps)
    requires Unrolled(name, tstates, tsteps, |tsteps|, states, steps) && Initial(states[0], pairs)
    requires L.Distinct(tstates[0].store) && i < |pairs| && k <= |tsteps| && AllInTime(name, tstates, tsteps, i)
    ensures |tstates[k].sessions| == |pairs|
    ensures Fresh(name, tstates[k].store, tstates[k].sessions[i], SentAt(tstates, tsteps, i, k))
  {
    hide Fresh, InTime, Inv, Initial, Next, Enabled, Shows, FoundBy, StoreAfter, L.Distinct;
    KeysStay(states, steps, pairs, 3 * k, i);
    assert Mirrors(name, tstates[k], states[3 * k]);
    if k == 0 {
      StartsFresh(name, tstates[0], states[0], pairs, i);
    } else {
      RunStaysFresh(name, tstates, tsteps, states, steps, pairs, i, k - 1);
      var (t, tstep, s) := (tstates[k - 1], tsteps[k - 1], states[3 * (k - 1) + 1]);
      StaysDistinct(name, tstates, tsteps, k - 1);
      RunInv(states, steps, pairs, 3 * (k - 1) + 1);
      assert Block(name, t, tstates[k], tstep, states, steps, 3 * (k - 1));
      assert TimedNext(name, t, tstates[k], tstep);
      StaysFresh(name, t, tstep, s, i, SentAt(tstates, tsteps, i, k - 1), RoundsOf(pairs));
    }
  }

  lemma StartsFresh(name: Naming, t: TimedState, s: State, pairs: seq<Pair>, i: nat)
    requires Initial(s, pairs) && i < |pairs| && s.sessions == t.sessions
    ensures |t.sessions| == |pairs| && Fresh(name, t.store, t.sessions[i], 0)
  {
  }

  lemma BlockIsPresent(
      name: Naming, tstates: seq<TimedState>, tsteps: seq<TimedStep>, states: seq<State>, steps: seq<Step>,
      pairs: seq<Pair>, i: nat, k: nat)
    requires Injective(name) && IsTimedRun(name, tstates, tsteps)
    requires Unrolled(name, tstates, tsteps, |tsteps|, states, steps) && Initial(states[0], pairs)
    requires L.Distinct(tstates[0].store) && i < |pairs| && k < |tsteps| && AllInTime(name, tstates, tsteps, i)
    ensures |tstates[k].sessions| == |tstates[k + 1].sessions| == |pairs|
    ensures Present(tstates[k].sessions[i], states[3 * k + 1].store)
    ensures Present(tstates[k + 1].sessions[i], states[3 * (k + 1)].store)
  {
    hide Fresh, Initial, Next, Enabled, Shows, FoundBy, StoreAfter, L.Distinct, Present;
    var (t, t', tstep) := (tstates[k], tstates[k + 1], tsteps[k]);
    assert Block(name, t, t', tstep, states, steps, 3 * k);
    RunStaysFresh(name, tstates, tsteps, states, steps, pairs, i, k);
    FoundIsFresh(name, t, tstep, i, SentAt(tstates, tsteps, i, k));
    FreshIsPresent(name, FoundBy(name, t, tstep), states[3 * k + 1].store, t.sessions[i],
                   SentAt(tstates, tsteps, i, k));
    RunStaysFresh(name, tstates, tsteps, states, steps, pairs, i, k + 1);
    assert Mirrors(name, t', states[3 * (k + 1)]);
    FreshIsPresent(name, t'.store, states[3 * (k + 1)].store, t'.sessions[i], SentAt(tstates, tsteps, i, k + 1));
  }

  /** So nothing of the pair expires before it is taken. */
  lemma StepIsHarmless(
      name: Naming, tstates: seq<TimedState>, tsteps: seq<TimedStep>, states: seq<State>, steps: seq<Step>,
      pairs: seq<Pair>, i: nat, b: nat)
    requires Injective(name) && IsTimedRun(name, tstates, tsteps)
    requires Unrolled(name, tstates, tsteps, |tsteps|, states, steps) && Initial(states[0], pairs)
    requires L.Distinct(tstates[0].store) && i < |pairs| && b < |steps| && AllInTime(name, tstates, tsteps, i)
    ensures Harmless(states[b], steps[b], i)
  {
    hide Fresh, Initial, Next, Enabled, Shows, FoundBy, StoreAfter, L.Distinct, Present;
    var k := b / 3;
    BlockIsPresent(name, tstates, tsteps, states, steps, pairs, i, k);
    BlockIsHarmless(name, tstates[k], tstates[k + 1], tsteps[k], states, steps, i, k, b, SentAt(tstates, tsteps, i, k));
  }

  lemma BlockIsHarmless(
      name: Naming, t: TimedState, t': TimedState, tstep: TimedStep, states: seq<State>, steps: seq<Step>,
      i: nat, k: nat, b: nat, sentAt: int)
    requires |states| == |steps| + 1 && 3 * k <= b < 3 * k + 3 <= |steps| && i < |t.sessions| && i < |t'.sessions|
    requires Block(name, t, t', tstep, states, steps, 3 * k)
    requires TimedNext(name, t, t', tstep) && InTime(name, t, tstep, i, sentAt)
    requires Present(t.sessions[i], states[3 * k + 1].store) && Present(t'.sessions[i], states[3 * k + 3].store)
    ensures Harmless(states[b], steps[b], i)
  {
    hide Present, Shows, FoundBy, StoreAfter, Enabled, Next;
    assert b == 3 * k || b == 3 * k + 1 || b == 3 * k + 2;
  }

  /** Over the directory: a pair started with the same number of rounds, whose schedule is fair,
      whose calls do not fail, and whose payloads are each taken before the minute has passed
      for which they are stored, never gives up; and once it has stopped it has had all its
      rounds, each having received in order all that the other has sent. */
  lemma TimedSuccess(
      name: Naming, tstates: seq<TimedState>, tsteps: seq<TimedStep>, s: State, pairs: seq<Pair>, k: nat, i: nat)
    requires Injective(name) && IsTimedRun(name, tstates, tsteps) && TimedInitial(name, tstates[0], s, pairs)
    requires k <= |tsteps| && i < |pairs| && pairs[i].rounds.0 == pairs[i].rounds.1
    requires TimedFair(tstates, tsteps, i) && AllInTime(name, tstates, tsteps, i)
    ensures |tstates[k].sessions| == |pairs| && Sound(tstates[k].sessions[i])
    ensures var (x, n) := (tstates[k].sessions[i], AtLeastZero(pairs[i].rounds.0));
      !x.initiator.Running() && !x.contributor.Running() ==>
        && |x.log| == 2 * n && |x.initiator.received| == |x.contributor.received| == n
        && x.initiator.received == Sent(x.log, Contributor) && x.contributor.received == Sent(x.log, Initiator)
  {
    hide Initial, Block, Sent, Harmless, GoesWell, InTime, Fair;
    var states, steps := Unroll(name, tstates, tsteps, |tsteps|, s);
    UnrolledFair(name, tstates, tsteps, states, steps, i);
    forall b | 0 <= b < |steps| ensures Harmless(states[b], steps[b], i) {
      StepIsHarmless(name, tstates, tsteps, states, steps, pairs, i, b);
    }
    assert Mirrors(name, tstates[k], states[3 * k]);
    NeverGivesUp(states, steps, pairs, 3 * k, i);
    if !tstates[k].sessions[i].initiator.Running() && !tstates[k].sessions[i].contributor.Running() {
      FairPairSucceeds(states, steps, pairs, 3 * k, i);
    }
  }
}
