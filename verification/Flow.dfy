/** How messages move between nodes: each client operation is published at most once,
    receiving never publishes, and what is on its way dies out. */
module Flow {
  import opened Roles
  import opened Replication

  // ----- One publication -----

  /** Every publication, done or asked of a child, is of another operation. */
  ghost predicate Unique(published: seq<Letter>, downs: multiset<Letter>, nextId: nat) {
    && (forall i | 0 <= i < |published| :: published[i].msg.id < nextId)
    && (forall l | l in downs :: l.msg.id < nextId && downs[l] == 1)
    && (forall i, j | 0 <= i < j < |published| :: published[i].msg.id != published[j].msg.id)
    && (forall i, l | 0 <= i < |published| && l in downs :: published[i].msg.id != l.msg.id)
    && (forall l, l' | l in downs && l' in downs && l != l' :: l.msg.id != l'.msg.id)
  }

  /** Only members of the room publish, and only processes outside it send down. */
  ghost predicate Placed(net: Network, published: seq<Letter>, downs: multiset<Letter>) {
    && (forall i | 0 <= i < |published| :: published[i].node in net && net[published[i].node].InRoom())
    && (forall l | l in downs :: l.node in net && !net[l.node].InRoom())
  }

  ghost predicate Orderly(net: Network, s: State) {
    Unique(s.published, s.downs, s.nextId) && Placed(net, s.published, s.downs)
  }

  lemma UniqueLater(published: seq<Letter>, downs: multiset<Letter>, nextId: nat)
    requires Unique(published, downs, nextId)
    ensures Unique(published, downs, nextId + 1)
    ensures forall i | 0 <= i < |published| :: published[i].msg.id != nextId
    ensures forall l | l in downs :: l.msg.id != nextId
  {
  }

  lemma PublishOrderly(net: Network, s: State, n: NodeId, msg: Msg)
    requires Orderly(net, s) && n in net && msg.id < s.nextId
    requires forall i | 0 <= i < |s.published| :: s.published[i].msg.id != msg.id
    requires forall l | l in s.downs :: l.msg.id != msg.id
    ensures Orderly(net, Publish(net, s, n, msg))
  {
    hide Unique, Placed;
    if net[n].InRoom() {
      UniqueBehind(s.published, s.downs, s.nextId, Letter(n, msg));
      PlacedBehind(net, s.published, s.downs, Letter(n, msg));
    }
  }

  lemma UniqueBehind(published: seq<Letter>, downs: multiset<Letter>, nextId: nat, letter: Letter)
    requires Unique(published, downs, nextId) && letter.msg.id < nextId
    requires forall i | 0 <= i < |published| :: published[i].msg.id != letter.msg.id
    requires forall l | l in downs :: l.msg.id != letter.msg.id
    ensures Unique(published + [letter], downs, nextId)
  {
  }

  lemma PlacedBehind(net: Network, published: seq<Letter>, downs: multiset<Letter>, letter: Letter)
    requires Placed(net, published, downs) && letter.node in net && net[letter.node].InRoom()
    ensures Placed(net, published + [letter], downs)
  {
  }

  lemma TakenDownOrderly(net: Network, s: State, letter: Letter)
    requires Orderly(net, s) && letter in s.downs
    ensures Orderly(net, TakeDown(s, letter))
    ensures forall l | l in TakeDown(s, letter).downs :: l.msg.id != letter.msg.id
  {
    var downs := s.downs - multiset{letter};
    assert forall l | l in downs :: l in s.downs && l != letter && downs[l] == s.downs[l];
  }

  lemma SentDownUnique(published: seq<Letter>, downs: multiset<Letter>, nextId: nat, letter: Letter)
    requires Unique(published, downs, nextId) && letter.msg.id == nextId
    ensures Unique(published, downs + multiset{letter}, nextId + 1)
  {
    var downs' := downs + multiset{letter};
    assert letter !in downs;
    assert forall l | l in downs' :: l == letter || (l in downs && downs'[l] == downs[l]);
  }

  lemma NewOrderly(net: Network, s: State, s': State, n: NodeId, msg: Msg)
    requires Orderly(net, s) && n in net && msg.id == s.nextId
    requires s'.published == s.published && s'.downs == s.downs && s'.nextId == s.nextId + 1
    ensures Orderly(net, Publish(net, s', n, msg))
  {
    UniqueLater(s.published, s.downs, s.nextId);
    PublishOrderly(net, s', n, msg);
  }

  lemma SendDownOrderly(net: Network, s: State, s': State, n: NodeId, msg: Msg)
    requires Orderly(net, s) && n in net && !net[n].InRoom() && HasIPC(net[n].options) && msg.id == s.nextId
    requires s'.published == s.published && s'.downs == s.downs && s'.nextId == s.nextId + 1
    ensures Orderly(net, Publish(net, SendDown(net, s', n, msg), n, msg))
  {
    SentDownUnique(s.published, s.downs, s.nextId, Letter(n, msg));
  }

  lemma ClientAddOrderly(net: Network, s: State, n: NodeId, args: Args, clock: int)
    requires s.events.Keys == net.Keys && Orderly(net, s) && n in net && net[n].Serves()
    ensures Orderly(net, AfterClientAdd(net, s, n, args, clock))
  {
    var msg := Msg(s.nextId, DirectoryAdd, args);
    var s' := Do(Record(s, args, true), n, EventOf(msg, clock));
    RolesExclude(net[n].options);
    if HasIPC(net[n].options) {
      SendDownOrderly(net, s, s', n, msg);
    } else {
      NewOrderly(net, s, s', n, msg);
    }
  }

  lemma StepOrderly(net: Network, s: State, step: Step)
    requires s.events.Keys == net.Keys && Orderly(net, s) && Enabled(net, s, step)
    ensures Orderly(net, Next(net, s, step))
  {
    match step
    case ClientAdd(n, args, clock) => ClientAddOrderly(net, s, n, args, clock);
    case ClientRemove(n, args, clock) =>
      var msg := Msg(s.nextId, DirectoryRemove, args);
      NewOrderly(net, s, Do(Record(s, args, false), n, EventOf(msg, clock)), n, msg);
    case Heartbeat(n, entry) => NewOrderly(net, s, NewId(s), n, HeartbeatMsg(s, entry));
    case HandleDown(c, letter) =>
      TakenDownOrderly(net, s, letter);
      PublishOrderly(net, TakeDown(s, letter), c, letter.msg);
    case LoseDown(letter) => TakenDownOrderly(net, s, letter);
    case _ =>
  }

  /** In every run, every client operation and heartbeat is published at most once, by a
      member of the room; a main process with children never publishes. */
  lemma {:induction false} PublishedAtMostOnce(net: Network, states: seq<State>, steps: seq<Step>, k: nat)
    requires IsRun(net, states, steps) && k <= |steps|
    ensures forall i, j | 0 <= i < j < |states[k].published| ::
              states[k].published[i].msg.id != states[k].published[j].msg.id
    ensures forall i | 0 <= i < |states[k].published| ::
              var n := states[k].published[i].node;
              n in net && net[n].InRoom() && !(net[n].Serves() && HasIPC(net[n].options))
  {
    RunOrderly(net, states, steps, k);
    forall i | 0 <= i < |states[k].published|
      ensures var n := states[k].published[i].node;
              n in net && net[n].InRoom() && !(net[n].Serves() && HasIPC(net[n].options))
    {
      RolesExclude(net[states[k].published[i].node].options);
    }
  }

  lemma {:induction false} RunOrderly(net: Network, states: seq<State>, steps: seq<Step>, k: nat)
    requires IsRun(net, states, steps) && k <= |steps|
    ensures Orderly(net, states[k])
  {
    if k != 0 {
      RunOrderly(net, states, steps, k - 1);
      StepOrderly(net, states[k - 1], steps[k - 1]);
    }
  }

  // ----- Who is sent what -----

  /** A copy is of what somebody else has published, for a member of the room. */
  ghost predicate CopyOk(net: Network, published: seq<Letter>, letter: Letter) {
    && letter.node in net && net[letter.node].InRoom() && letter !in published
    && exists i | 0 <= i < |published| :: published[i].msg == letter.msg
  }

  ghost predicate Addressed(net: Network, copies: multiset<Letter>, published: seq<Letter>) {
    forall l | l in copies :: CopyOk(net, published, l)
  }

  lemma PublishAddressed(net: Network, s: State, n: NodeId, msg: Msg)
    requires Addressed(net, s.copies, s.published) && n in net
    requires forall i | 0 <= i < |s.published| :: s.published[i].msg.id != msg.id
    ensures Addressed(net, Publish(net, s, n, msg).copies, Publish(net, s, n, msg).published)
  {
    if net[n].InRoom() {
      var s' := Publish(net, s, n, msg);
      assert s'.published == s.published + [Letter(n, msg)];
      forall l | l in s'.copies ensures CopyOk(net, s'.published, l) {
        if l in s.copies {
          assert CopyOk(net, s.published, l);
          var i :| 0 <= i < |s.published| && s.published[i].msg == l.msg;
          assert s'.published[i].msg == l.msg;
        } else {
          assert l.msg == msg && l.node != n && s'.published[|s.published|].msg == l.msg;
        }
      }
    }
  }

  lemma ClientAddAddressed(net: Network, s: State, n: NodeId, args: Args, clock: int)
    requires s.events.Keys == net.Keys && Orderly(net, s) && n in net && Addressed(net, s.copies, s.published)
    ensures var s' := AfterClientAdd(net, s, n, args, clock); Addressed(net, s'.copies, s'.published)
  {
    hide Publish, CopyOk;
    var msg := Msg(s.nextId, DirectoryAdd, args);
    PublishAddressed(net, SendDown(net, Do(Record(s, args, true), n, EventOf(msg, clock)), n, msg), n, msg);
  }

  lemma TakenAddressed(net: Network, s: State, letter: Letter, clock: int)
    requires s.events.Keys == net.Keys && letter.node in net && Addressed(net, s.copies, s.published)
    ensures var s' := AfterCopy(net, TakeCopy(s, letter), letter, clock); Addressed(net, s'.copies, s'.published)
  {
  }

  lemma StepAddressed(net: Network, s: State, step: Step)
    requires s.events.Keys == net.Keys && Orderly(net, s) && Enabled(net, s, step)
    requires Addressed(net, s.copies, s.published)
    ensures Addressed(net, Next(net, s, step).copies, Next(net, s, step).published)
  {
    hide Publish, CopyOk, AfterClientAdd, AfterCopy;
    match step
    case ClientAdd(n, args, clock) => ClientAddAddressed(net, s, n, args, clock);
    case HandleCopy(letter, clock) => TakenAddressed(net, s, letter, clock);
    case ClientRemove(n, args, clock) =>
      var msg := Msg(s.nextId, DirectoryRemove, args);
      PublishAddressed(net, Do(Record(s, args, false), n, EventOf(msg, clock)), n, msg);
    case Heartbeat(n, entry) => PublishAddressed(net, NewId(s), n, HeartbeatMsg(s, entry));
    case HandleDown(c, letter) => PublishAddressed(net, TakeDown(s, letter), c, letter.msg);
    case _ =>
  }

  lemma {:induction false} RunAddressed(net: Network, states: seq<State>, steps: seq<Step>, k: nat)
    requires IsRun(net, states, steps) && k <= |steps|
    ensures Addressed(net, states[k].copies, states[k].published)
  {
    hide Next, Enabled, Orderly, CopyOk;
    if k != 0 {
      RunAddressed(net, states, steps, k - 1);
      RunOrderly(net, states, steps, k - 1);
      StepAddressed(net, states[k - 1], steps[k - 1]);
    }
  }

  /** In every run, what comes to a node from the room was published by another, and only
      members of the room are sent anything. */
  lemma NobodyHearsItself(net: Network, states: seq<State>, steps: seq<Step>, k: nat, letter: Letter)
    requires IsRun(net, states, steps) && k <= |steps| && letter in states[k].copies
    ensures letter.node in net && net[letter.node].InRoom()
    ensures exists i | 0 <= i < |states[k].published| :: states[k].published[i].msg == letter.msg
    ensures forall i | 0 <= i < |states[k].published| && states[k].published[i].msg == letter.msg ::
              states[k].published[i].node != letter.node
  {
    RunAddressed(net, states, steps, k);
    assert CopyOk(net, states[k].published, letter);
  }

  // ----- No echo -----

  predicate IsReceiving(step: Step) {
    step.HandleCopy? || step.HandleUp?
  }

  /** Handling a message from the room, or one sent up, publishes nothing and sends nothing
      down; what a peer in the room receives, it does not pass up either. */
  lemma ReceivingNeverPublishes(net: Network, s: State, step: Step)
    requires s.events.Keys == net.Keys && Enabled(net, s, step) && IsReceiving(step)
    ensures Next(net, s, step).published == s.published && Next(net, s, step).downs == s.downs
    ensures step.HandleCopy? && StartsP2P(net[step.letter.node].options) && !HasIPC(net[step.letter.node].options) ==>
              Next(net, s, step).ups == s.ups
  {
    if step.HandleCopy? {
      RolesExclude(net[step.letter.node].options);
    }
  }

  /** A Remove at a main process with children is told to nobody: not to the room, which the
      process is not in, and not to its children, unlike an Add. */
  lemma RemoveStaysAtMain(net: Network, s: State, n: NodeId, args: Args, clock: int)
    requires s.events.Keys == net.Keys && n in net && net[n].Serves() && HasIPC(net[n].options)
    ensures var s' := AfterClientRemove(net, s, n, args, clock);
      s'.copies == s.copies && s'.downs == s.downs && s'.ups == s.ups && s'.published == s.published
    ensures args.name != "" && args.entry != "" ==>
              Letter(n, Msg(s.nextId, DirectoryAdd, args)) in AfterClientAdd(net, s, n, args, clock).downs
  {
    RolesExclude(net[n].options);
  }

  // ----- Everything dies out -----

  function Room(net: Network): set<NodeId> {
    set n | n in net && net[n].InRoom()
  }

  /** A bound on the messages that still have to be handled: one sent down can become a copy
      for everybody in the room, and a copy can become one message up. */
  function Rank(net: Network, s: State): nat {
    (2 * |Room(net)| + 1) * |s.downs| + 2 * |s.copies| + |s.ups|
  }

  lemma Member<T>(s: set<T>) returns (x: T)
    requires s != {}
    ensures x in s
  {
    x :| x in s;
  }

  lemma {:induction false} CopiesSize(nodes: set<NodeId>, msg: Msg)
    ensures |multiset(Copies(nodes, msg))| == |nodes|
  {
    if nodes != {} {
      var n := Member(nodes);
      CopiesSize(nodes - {n}, msg);
      assert Copies(nodes, msg) == Copies(nodes - {n}, msg) + {Letter(n, msg)};
      assert Letter(n, msg) !in Copies(nodes - {n}, msg);
      assert |nodes - {n}| == |nodes| - 1;
    } else {
      assert nodes == {};
      assert Copies(nodes, msg) == {};
    }
  }

  lemma SubsetSize(a: set<NodeId>, b: set<NodeId>)
    requires a <= b
    ensures |a| <= |b|
  {
    assert b == a + (b - a);
  }

  lemma PublishRank(net: Network, s: State, n: NodeId, msg: Msg)
    requires n in net
    ensures Rank(net, Publish(net, s, n, msg)) <= Rank(net, s) + 2 * |Room(net)|
  {
    if net[n].InRoom() {
      var others := set m | m in net && net[m].InRoom() && m != n;
      CopiesSize(others, msg);
      SubsetSize(others, Room(net));
    }
  }

  predicate IsHandling(step: Step) {
    step.HandleDown? || step.HandleCopy? || step.HandleUp? || step.LoseDown? || step.LoseCopy? || step.LoseUp?
  }

  lemma OneLess(r: int, n: int)
    ensures r * n == r * (n - 1) + r
  {
  }

  lemma TakenDownRank(net: Network, s: State, letter: Letter)
    requires letter in s.downs
    ensures Rank(net, TakeDown(s, letter)) + 2 * |Room(net)| + 1 == Rank(net, s)
  {
    assert |s.downs - multiset{letter}| == |s.downs| - 1;
    OneLess(2 * |Room(net)| + 1, |s.downs|);
  }

  /** Whatever is handled or lost, less remains. */
  lemma RankFalls(net: Network, s: State, step: Step)
    requires s.events.Keys == net.Keys && Enabled(net, s, step) && IsHandling(step)
    ensures Rank(net, Next(net, s, step)) < Rank(net, s)
  {
    match step
    case HandleDown(c, letter) =>
      TakenDownRank(net, s, letter);
      PublishRank(net, TakeDown(s, letter), c, letter.msg);
    case LoseDown(letter) => TakenDownRank(net, s, letter);
    case HandleCopy(letter, clock) =>
      assert |TakeCopy(s, letter).copies| == |s.copies| - 1;
    case HandleUp(letter, clock) =>
      assert |TakeUp(s, letter).ups| == |s.ups| - 1;
    case LoseCopy(letter) =>
      assert |TakeCopy(s, letter).copies| == |s.copies| - 1;
    case LoseUp(letter) =>
      assert |TakeUp(s, letter).ups| == |s.ups| - 1;
  }

  ghost predicate IsHandlingTrace(net: Network, states: seq<State>, steps: seq<Step>) {
    && |states| == |steps| + 1
    && forall k | 0 <= k < |steps| ::
         && states[k].events.Keys == net.Keys && IsHandling(steps[k]) && Enabled(net, states[k], steps[k])
         && states[k + 1] == Next(net, states[k], steps[k])
  }

  /** From any state, once no new operations, heartbeats or repetitions come, at most as many
      messages are handled as the rank says. */
  lemma {:induction false} QuietTracesEnd(net: Network, states: seq<State>, steps: seq<Step>, k: nat)
    requires IsHandlingTrace(net, states, steps) && k <= |steps|
    ensures k + Rank(net, states[k]) <= Rank(net, states[0])
  {
    if k != 0 {
      QuietTracesEnd(net, states, steps, k - 1);
      RankFalls(net, states[k - 1], steps[k - 1]);
    }
  }
}
