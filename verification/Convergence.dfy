/** When directories agree: exactly when the last operation that each has handled on a pair is
    an Add at all of them or at none.  With Adds alone that is so wherever all messages have
    been handled; Removes can cross with Adds. */
module Convergence {
  import opened TimedStore
  import opened Lifetimes
  import opened Replication

  // ----- One directory -----

  /** An operation that any node would accept, within the shortest TTL from `start` on. */
  predicate Calm(e: Event, start: int) {
    match e
    case EList(_, clock) => start <= clock <= start + SHORTEST_TTL
    case EAdd(_, _, ttl, clock) => start <= clock <= start + SHORTEST_TTL <= start + ttl
    case ERemove(_, _, clock) => start <= clock <= start + SHORTEST_TTL
    case Evict(_) => false
  }

  /** Only such operations, in any order of their clocks. */
  predicate AllCalm(events: seq<Event>, start: int) {
    forall e | e in events :: Calm(e, start)
  }

  ghost predicate LongLived(s: Store, start: int) {
    forall key | key in s ::
      && SHORTEST_TTL <= s[key].ttl && start + SHORTEST_TTL <= s[key].deadline
      && forall e | e in s[key].entries :: Truncated(start) + SHORTEST_TTL <= e.expireOn
  }

  lemma ApplyLongList(s: Store, e: Event, start: int, key: string)
    requires LongLived(s, start) && Calm(e, start) && key in Apply(s, e).0
    ensures SHORTEST_TTL <= Apply(s, e).0[key].ttl && start + SHORTEST_TTL <= Apply(s, e).0[key].deadline
  {
    if !Touches(e, key) {
      ApplyElsewhere(s, e, key);
    } else if e.ERemove? {
      RemoveFromNothing(s, key, e.value, e.clock);
    }
  }

  lemma ApplyLongLived(s: Store, e: Event, start: int)
    requires Distinct(s) && LongLived(s, start) && Calm(e, start)
    ensures LongLived(Apply(s, e).0, start)
  {
    TruncatedMonotone(start, if !e.Evict? then e.clock else start);
    var s' := Apply(s, e).0;
    forall key | key in s'
      ensures SHORTEST_TTL <= s'[key].ttl && start + SHORTEST_TTL <= s'[key].deadline
      ensures forall entry | entry in s'[key].entries :: Truncated(start) + SHORTEST_TTL <= entry.expireOn
    {
      ApplyLongList(s, e, start, key);
      forall entry | entry in s'[key].entries ensures Truncated(start) + SHORTEST_TTL <= entry.expireOn {
        ApplyHas(s, e, key, entry.value, entry.expireOn);
      }
    }
  }

  lemma {:induction false} RunLongLived(events: seq<Event>, start: int)
    requires AllCalm(events, start)
    ensures LongLived(Run(events), start)
  {
    if events != [] {
      var before, e := events[..|events| - 1], events[|events| - 1];
      RunLongLived(before, start);
      RunDistinct(before);
      ApplyLongLived(Run(before), e, start);
    }
  }

  lemma WithinTtl(start: int, clock: int)
    requires clock <= start + SHORTEST_TTL
    ensures Truncated(clock) <= Truncated(start) + SHORTEST_TTL
  {
    TruncatedMonotone(clock, start + SHORTEST_TTL);
    assert Truncated(start + SHORTEST_TTL) == Truncated(start) + SHORTEST_TTL;
  }

  ghost predicate Stored(s: Store, key: string, value: string) {
    exists x :: Has(s, key, value, x)
  }

  lemma CalmStep(s: Store, e: Event, start: int, key: string, value: string)
    requires Distinct(s) && LongLived(s, start) && Calm(e, start)
    ensures Stored(Apply(s, e).0, key, value) <==> if Writes(e, key, value) then e.EAdd? else Stored(s, key, value)
  {
    var s' := Apply(s, e).0;
    WithinTtl(start, e.clock);
    forall x
      ensures Has(s', key, value, x) <==>
              if Writes(e, key, value) then e.EAdd? && x == Truncated(e.clock) + e.ttl else Has(s, key, value, x)
    {
      ApplyHas(s, e, key, value, x);
    }
    if e.EAdd? && Writes(e, key, value) {
      assert Has(s', key, value, Truncated(e.clock) + e.ttl);
    }
  }

  /** Exactly the pairs are stored that were written last by an Add. */
  lemma {:induction false} StoredIsLastWrite(events: seq<Event>, start: int, key: string, value: string)
    requires AllCalm(events, start)
    ensures Stored(Run(events), key, value) <==> LastWrite(events, key, value).Some?
  {
    if events != [] {
      var before, e := events[..|events| - 1], events[|events| - 1];
      StoredIsLastWrite(before, start, key, value);
      RunDistinct(before);
      RunLongLived(before, start);
      CalmStep(Run(before), e, start, key, value);
    }
  }

  lemma ListedIsLastWrite(events: seq<Event>, start: int, key: string, value: string, now: int)
    requires AllCalm(events, start) && now <= start + SHORTEST_TTL && key != ""
    ensures InAnswer(List(Run(events), key, now).1, value) <==> LastWrite(events, key, value).Some?
  {
    RunLongLived(events, start);
    StoredIsLastWrite(events, start, key, value);
    ListAnswer(Run(events), key, value, now);
    forall x ensures Has(Collect(Run(events), now), key, value, x) <==> Has(Run(events), key, value, x) {
    }
  }

  /** How long a value that is added in the mode stays listed, in seconds. */
  function Seconds(mode: string): int {
    match mode
    case "fast" => 15
    case "short" => 60
    case "long" => 300
    case _ => 180
  }

  /** An accepted Add, if nothing follows, is listed exactly as long as its mode says. */
  lemma ListedForItsMode(key: string, value: string, mode: string, clock: int, now: int)
    requires key != "" && value != ""
    ensures var add := EventOf(Msg(0, DirectoryAdd, Args(key, value, mode)), clock);
      InAnswer(List(Run([add]), key, now).1, value) <==> now <= clock + Seconds(mode) * SECOND
  {
    hide Apply;
    var add := EventOf(Msg(0, DirectoryAdd, Args(key, value, mode)), clock);
    assert [add][..0] == [] && Run([add]) == Apply(map[], add).0;
    NewEntry(map[], add);
    OneEntryListed(Run([add]), key, value, Truncated(clock) + add.ttl, now);
  }

  lemma OneEntryListed(s: Store, key: string, value: string, expireOn: int, now: int)
    requires key != "" && key in s && s[key].entries == [Entry(value, expireOn)]
    ensures InAnswer(List(s, key, now).1, value) <==> now <= s[key].deadline
  {
    assert Values([Entry(value, expireOn)])[0] == value;
    if s[key].deadline < now {
      assert Lookup(Collect(s, now), key).entries == [] && Values([]) == [];
    } else {
      assert Lookup(Collect(s, now), key) == s[key];
    }
  }

  // ----- All directories -----

  /** The step reads its clock within the shortest TTL from `start` on, and evicts nothing. */
  predicate Prompt(step: Step, start: int) {
    match step
    case ClientList(_, _, clock) => start <= clock <= start + SHORTEST_TTL
    case ClientAdd(_, _, clock) => start <= clock <= start + SHORTEST_TTL
    case ClientRemove(_, _, clock) => start <= clock <= start + SHORTEST_TTL
    case HandleCopy(_, clock) => start <= clock <= start + SHORTEST_TTL
    case HandleUp(_, clock) => start <= clock <= start + SHORTEST_TTL
    case EvictAt(_, _) => false
    case _ => true
  }

  predicate InWindow(steps: seq<Step>, start: int) {
    forall step | step in steps :: Prompt(step, start)
  }

  lemma {:induction false} HistoryIsCalm(net: Network, steps: seq<Step>, n: NodeId, start: int)
    requires n in net && InWindow(steps, start)
    ensures AllCalm(History(net, steps, n), start)
  {
    if steps != [] {
      assert steps[|steps| - 1] in steps;
      HistoryIsCalm(net, steps[..|steps| - 1], n, start);
    }
  }

  /** What a node of a run answers to a List. */
  function Answered(states: seq<State>, k: nat, n: NodeId, key: string, now: int): Answer
    requires k < |states| && n in states[k].events
  {
    List(Run(states[k].events[n]), key, now).1
  }

  /** A node lists a value exactly if the last operation on the pair that it has handled is
      an Add, whatever the order in which things reached it. */
  lemma ListsWhatWasAddedLast(
      net: Network, states: seq<State>, steps: seq<Step>, k: nat, n: NodeId, key: string, value: string,
      start: int, now: int)
    requires IsRun(net, states, steps) && k <= |steps| && n in net && key != ""
    requires InWindow(steps[..k], start) && now <= start + SHORTEST_TTL
    ensures n in states[k].events
    ensures InAnswer(Answered(states, k, n, key, now), value) <==> LastIsAdd(net, steps, k, n, key, value)
  {
    EventsAreHistory(net, states, steps, k, n);
    HistoryIsCalm(net, steps[..k], n, start);
    ListedIsLastWrite(states[k].events[n], start, key, value, now);
    LastWriteIsLastAt(net, steps, k, n, key, value);
  }

  /** Two nodes agree on a pair exactly if the last operation on it that each has handled is an
      Add at both or at neither. */
  lemma AgreeExactly(
      net: Network, states: seq<State>, steps: seq<Step>, k: nat, n: NodeId, m: NodeId, key: string, value: string,
      start: int, now: int)
    requires IsRun(net, states, steps) && k <= |steps| && n in net && m in net && key != ""
    requires InWindow(steps[..k], start) && now <= start + SHORTEST_TTL
    ensures n in states[k].events && m in states[k].events
    ensures (InAnswer(Answered(states, k, n, key, now), value) <==> InAnswer(Answered(states, k, m, key, now), value))
            <==> (LastIsAdd(net, steps, k, n, key, value) <==> LastIsAdd(net, steps, k, m, key, value))
  {
    ListsWhatWasAddedLast(net, states, steps, k, n, key, value, start, now);
    ListsWhatWasAddedLast(net, states, steps, k, m, key, value, start, now);
  }

  // ----- Adds alone converge -----

  /** The step is a client's Add at the node, or the node handles a message with one. */
  predicate Brings(step: Step, n: NodeId, args: Args) {
    match step
    case ClientAdd(m, a, _) => m == n && a == args
    case HandleCopy(letter, _) => letter.node == n && letter.msg.context.DirectoryAdd? && letter.msg.args == args
    case HandleUp(letter, _) => letter.node == n && letter.msg.context.DirectoryAdd? && letter.msg.args == args
    case _ => false
  }

  /** Among the first `k` steps the node has handled every accepted Add under the key, by
      whatever way and however often. */
  predicate HandledAll(states: seq<State>, steps: seq<Step>, k: nat, n: NodeId, key: string)
    requires k < |states| && k <= |steps|
  {
    forall a | a in states[k].adds && a.name == key :: exists j | 0 <= j < k :: Brings(steps[j], n, a)
  }

  /** An accepted Add passes wherever it is handled the checks that it passed at its origin,
      except as a heartbeat. */
  lemma BringingWrites(net: Network, step: Step, n: NodeId, args: Args)
    requires n in net && net[n].Serves() && Brings(step, n, args)
    requires args.name != "" && args.name != HEARTBEAT && args.entry != ""
    ensures WritesAt(net, step, n, args.name, args.entry) && Does(net, step, n).value.EAdd?
  {
  }

  lemma {:induction false} LastExists(
      net: Network, steps: seq<Step>, k: nat, n: NodeId, key: string, value: string, i: nat)
      returns (j: nat)
    requires n in net && i < k <= |steps| && WritesAt(net, steps[i], n, key, value)
    ensures LastAt(net, steps, k, n, key, value, j)
  {
    if WritesAt(net, steps[k - 1], n, key, value) {
      j := k - 1;
    } else {
      j := LastExists(net, steps, k - 1, n, key, value, i);
    }
  }

  /** The event of a step that wrote is in the node's history. */
  lemma {:induction false} DoneIsInHistory(net: Network, steps: seq<Step>, k: nat, n: NodeId, j: nat)
    requires n in net && j < k <= |steps| && Does(net, steps[j], n).Some?
    ensures Does(net, steps[j], n).value in History(net, steps[..k], n)
  {
    assert steps[..k][..k - 1] == steps[..k - 1];
    if j < k - 1 {
      DoneIsInHistory(net, steps, k - 1, n, j);
    }
  }

  /** No client has removed anything from the key. */
  predicate NoRemoves(s: State, key: string) {
    forall a | a in s.removes :: a.name != key
  }

  /** In every run in which nothing is removed from a key, a node that has handled every
      accepted Add under it, made there or brought by a message, lists exactly the values of
      the accepted Adds. */
  lemma ListsAllAdds(
      net: Network, states: seq<State>, steps: seq<Step>, k: nat, n: NodeId, key: string, value: string,
      start: int, now: int)
    requires IsRun(net, states, steps) && k <= |steps| && n in net && net[n].Serves() && key != "" && key != HEARTBEAT
    requires InWindow(steps[..k], start) && now <= start + SHORTEST_TTL
    requires NoRemoves(states[k], key) && HandledAll(states, steps, k, n, key)
    ensures n in states[k].events
    ensures InAnswer(Answered(states, k, n, key, now), value)
            <==> exists a :: a in states[k].adds && a.name == key && a.entry == value
  {
    var s := states[k];
    RunAccounted(net, states, steps, k);
    EventsAreHistory(net, states, steps, k, n);
    ListsWhatWasAddedLast(net, states, steps, k, n, key, value, start, now);
    if a :| a in s.adds && a.name == key && a.entry == value {
      var i :| 0 <= i < k && Brings(steps[i], n, a);
      BringingWrites(net, steps[i], n, a);
      var j := LastExists(net, steps, k, n, key, value, i);
      DoneIsInHistory(net, steps, k, n, j);
      assert EventOk(s, Does(net, steps[j], n).value);
    }
    if j :| LastAt(net, steps, k, n, key, value, j) && Does(net, steps[j], n).value.EAdd? {
      DoneIsInHistory(net, steps, k, n, j);
      assert EventOk(s, Does(net, steps[j], n).value);
    }
  }

  /** So two such nodes list the same values, whatever the orders and repetitions. */
  lemma Converged(
      net: Network, states: seq<State>, steps: seq<Step>, k: nat, n: NodeId, m: NodeId, key: string,
      start: int, now: int)
    requires IsRun(net, states, steps) && k <= |steps| && key != "" && key != HEARTBEAT
    requires n in net && net[n].Serves() && m in net && net[m].Serves()
    requires InWindow(steps[..k], start) && now <= start + SHORTEST_TTL && NoRemoves(states[k], key)
    requires HandledAll(states, steps, k, n, key) && HandledAll(states, steps, k, m, key)
    ensures n in states[k].events && m in states[k].events
    ensures forall value ::
              && (InAnswer(Answered(states, k, n, key, now), value)
                  <==> InAnswer(Answered(states, k, m, key, now), value))
              && (InAnswer(Answered(states, k, n, key, now), value)
                  <==> exists a :: a in states[k].adds && a.name == key && a.entry == value)
  {
    EventsAreHistory(net, states, steps, k, n);
    EventsAreHistory(net, states, steps, k, m);
    forall value
      ensures InAnswer(Answered(states, k, n, key, now), value) <==> InAnswer(Answered(states, k, m, key, now), value)
      ensures InAnswer(Answered(states, k, n, key, now), value)
              <==> exists a :: a in states[k].adds && a.name == key && a.entry == value
    {
      ListsAllAdds(net, states, steps, k, n, key, value, start, now);
      ListsAllAdds(net, states, steps, k, m, key, value, start, now);
    }
  }

  // ----- With Removes they need not -----

  /** An Add made at one peer and a Remove made at another, and either's message handled at the
      other. */
  function Crossing(n: NodeId, m: NodeId, args: Args, clock: int): seq<Step> {
    [ClientAdd(n, args, clock), ClientRemove(m, args, clock),
     HandleCopy(Letter(n, Msg(1, DirectoryRemove, args)), clock),
     HandleCopy(Letter(m, Msg(0, DirectoryAdd, args)), clock)]
  }

  lemma AddIsSent(net: Network, s: State, n: NodeId, m: NodeId, args: Args, clock: int)
    requires s.events.Keys == net.Keys && n in net && m in net && n != m && net[n].InRoom() && net[m].InRoom()
    requires net[n].Serves() && args.name != "" && args.entry != ""
    ensures var s' := Next(net, s, ClientAdd(n, args, clock));
      s'.nextId == s.nextId + 1 && Letter(m, Msg(s.nextId, DirectoryAdd, args)) in s'.copies
  {
  }

  lemma RemoveIsSent(net: Network, s: State, n: NodeId, m: NodeId, args: Args, clock: int, letter: Letter)
    requires s.events.Keys == net.Keys && n in net && m in net && n != m && net[n].InRoom() && net[m].InRoom()
    requires net[m].Serves() && letter in s.copies
    ensures var s' := Next(net, s, ClientRemove(m, args, clock));
      Letter(n, Msg(s.nextId, DirectoryRemove, args)) in s'.copies && letter in s'.copies
  {
  }

  lemma OtherCopiesStay(net: Network, s: State, letter: Letter, other: Letter, clock: int)
    requires s.events.Keys == net.Keys && Enabled(net, s, HandleCopy(letter, clock))
    requires other in s.copies && other != letter
    ensures other in Next(net, s, HandleCopy(letter, clock)).copies
  {
  }

  lemma CrossingRuns(net: Network, n: NodeId, m: NodeId, args: Args, clock: int) returns (states: seq<State>)
    requires n in net && m in net && n != m
    requires net[n].Serves() && net[n].InRoom() && net[m].Serves() && net[m].InRoom()
    requires args.name != "" && args.name != HEARTBEAT && args.entry != ""
    ensures IsRun(net, states, Crossing(n, m, args, clock))
  {
    hide Next;
    var steps := Crossing(n, m, args, clock);
    var s0 := Begin(net);
    NextDoes(net, s0, steps[0], n);
    AddIsSent(net, s0, n, m, args, clock);
    var s1 := Next(net, s0, steps[0]);
    NextDoes(net, s1, steps[1], n);
    RemoveIsSent(net, s1, n, m, args, clock, steps[3].letter);
    var s2 := Next(net, s1, steps[1]);
    NextDoes(net, s2, steps[2], n);
    OtherCopiesStay(net, s2, steps[2].letter, steps[3].letter, clock);
    var s3 := Next(net, s2, steps[2]);
    states := [s0, s1, s2, s3, Next(net, s3, steps[3])];
  }

  lemma NextAdds(net: Network, s: State, step: Step)
    requires s.events.Keys == net.Keys && Enabled(net, s, step)
    ensures Next(net, s, step).adds <= s.adds + if step.ClientAdd? then {step.args} else {}
  {
    hide Add, Copies;
  }

  /** The claim that two nodes agree once both have handled everything is false: after such a
      run each peer has handled both operations, and they disagree. */
  lemma RemovesCross(net: Network, n: NodeId, m: NodeId, args: Args, clock: int) returns (states: seq<State>)
    requires n in net && m in net && n != m
    requires net[n].Serves() && net[n].InRoom() && net[m].Serves() && net[m].InRoom()
    requires args.name != "" && args.name != HEARTBEAT && args.entry != ""
    ensures var steps := Crossing(n, m, args, clock);
      && IsRun(net, states, steps)
      && HandledAll(states, steps, 4, n, args.name) && HandledAll(states, steps, 4, m, args.name)
      && n in states[4].events && m in states[4].events
      && !InAnswer(Answered(states, 4, n, args.name, clock), args.entry)
      && InAnswer(Answered(states, 4, m, args.name, clock), args.entry)
  {
    var steps := Crossing(n, m, args, clock);
    states := CrossingRuns(net, n, m, args, clock);
    AddsOfCrossing(net, n, m, args, clock, states);
    assert Brings(steps[0], n, args) && Brings(steps[3], m, args);
    assert steps[..4] == steps;
    ListsWhatWasAddedLast(net, states, steps, 4, n, args.name, args.entry, clock, clock);
    ListsWhatWasAddedLast(net, states, steps, 4, m, args.name, args.entry, clock, clock);
    assert WritesAt(net, steps[2], n, args.name, args.entry);
    assert LastAt(net, steps, 4, m, args.name, args.entry, 3);
  }

  lemma AddsOfCrossing(net: Network, n: NodeId, m: NodeId, args: Args, clock: int, states: seq<State>)
    requires n in net && m in net && n != m && IsRun(net, states, Crossing(n, m, args, clock))
    ensures states[4].adds <= {args}
  {
    hide Next;
    var steps := Crossing(n, m, args, clock);
    for k := 0 to 4
      invariant states[k].adds <= {args}
    {
      NextAdds(net, states[k], steps[k]);
    }
  }

  // ----- The heartbeat key -----

  /** Under the heartbeat key there is no convergence: whatever has been delivered, a node
      lists a value exactly if the last of its own clients' operations on it is an Add,
      because every other node takes such an Add for a heartbeat. */
  lemma HeartbeatKeyStaysHome(
      net: Network, states: seq<State>, steps: seq<Step>, k: nat, n: NodeId, value: string, start: int, now: int)
    requires IsRun(net, states, steps) && k <= |steps| && n in net
    requires InWindow(steps[..k], start) && now <= start + SHORTEST_TTL
    ensures n in states[k].events
    ensures InAnswer(Answered(states, k, n, HEARTBEAT, now), value) <==>
            exists j :: LastAt(net, steps, k, n, HEARTBEAT, value, j) && steps[j].ClientAdd? && steps[j].node == n
    ensures forall j | 0 <= j < k && WritesAt(net, steps[j], n, HEARTBEAT, value) :: IsClientStep(steps[j], n)
  {
    ListsWhatWasAddedLast(net, states, steps, k, n, HEARTBEAT, value, start, now);
    forall j | 0 <= j < k && WritesAt(net, steps[j], n, HEARTBEAT, value) ensures IsClientStep(steps[j], n) {
      HeartbeatsStayOut(net, states, steps, j, n);
    }
  }
}
