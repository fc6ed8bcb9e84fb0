/** What reaches whom.  A main process tells the room of Adds through a child, and learns of
    Adds and Removes in the room through it. */
module Relay {
  import opened TimedStore
  import opened Lifetimes
  import opened Roles
  import opened Replication
  import opened Convergence

  /** A main process, a child of it as it starts them, and a peer; the latter two are in the
      room. */
  predicate Trio(net: Network, main: NodeId, child: NodeId, peer: NodeId) {
    && main in net && child in net && peer in net && child != peer && main != peer && main != child
    && net[main].options.childProcessCount > 0 && net[main].options.childID == 0
    && net[child].options.childProcessCount == 0 && net[child].options.childID > 0 && net[child].main == main
    && net[child].options.bootstrap != "" && net[child].joined
    && net[peer].options.childProcessCount == 0 && net[peer].options.childID == 0
    && net[peer].options.bootstrap != "" && net[peer].joined
  }

  lemma TrioRoles(net: Network, main: NodeId, child: NodeId, peer: NodeId)
    requires Trio(net, main, child, peer)
    ensures net[main].Serves() && HasIPC(net[main].options) && StartsIPCService(net[main].options)
    ensures net[child].InRoom() && ReceiveMode(net[child].options).ChildMode? && ListensDown(net[child].options)
    ensures net[peer].Serves() && net[peer].InRoom() && ReceiveMode(net[peer].options).PeerMode?
  {
    RolesAre(net[main].options);
    RolesAre(net[child].options);
    RolesAre(net[peer].options);
  }

  lemma AddIsSentDown(net: Network, s: State, main: NodeId, args: Args, clock: int)
    requires s.events.Keys == net.Keys && main in net && net[main].Serves() && HasIPC(net[main].options)
    requires args.name != "" && args.entry != ""
    ensures Letter(main, Msg(s.nextId, DirectoryAdd, args)) in Next(net, s, ClientAdd(main, args, clock)).downs
  {
  }

  lemma DownIsPublished(net: Network, s: State, child: NodeId, letter: Letter, peer: NodeId)
    requires s.events.Keys == net.Keys && Enabled(net, s, HandleDown(child, letter))
    requires net[child].InRoom() && peer in net && net[peer].InRoom() && peer != child
    ensures Letter(peer, letter.msg) in Next(net, s, HandleDown(child, letter)).copies
  {
  }

  lemma CopyIsPassedUp(net: Network, s: State, letter: Letter, clock: int)
    requires s.events.Keys == net.Keys && Enabled(net, s, HandleCopy(letter, clock))
    requires ReceiveMode(net[letter.node].options).ChildMode? && letter.msg.args.name != HEARTBEAT
    ensures Letter(net[letter.node].main, letter.msg) in Next(net, s, HandleCopy(letter, clock)).ups
    ensures Next(net, s, HandleCopy(letter, clock)).nextId == s.nextId
  {
  }

  lemma UpKeepsIds(net: Network, s: State, letter: Letter, clock: int)
    requires s.events.Keys == net.Keys && Enabled(net, s, HandleUp(letter, clock))
    ensures Next(net, s, HandleUp(letter, clock)).nextId == s.nextId
  {
  }

  lemma RemoveIsPublished(net: Network, s: State, n: NodeId, m: NodeId, args: Args, clock: int)
    requires s.events.Keys == net.Keys && n in net && m in net && n != m && net[n].InRoom() && net[m].InRoom()
    requires net[m].Serves()
    ensures Letter(n, Msg(s.nextId, DirectoryRemove, args)) in Next(net, s, ClientRemove(m, args, clock)).copies
  {
  }

  // ----- Out -----

  /** An Add at the main process, taken by its child, and then by the peer. */
  function WayOut(main: NodeId, child: NodeId, peer: NodeId, args: Args, clock: int): seq<Step> {
    var msg := Msg(0, DirectoryAdd, args);
    [ClientAdd(main, args, clock), HandleDown(child, Letter(main, msg)), HandleCopy(Letter(peer, msg), clock)]
  }

  lemma WayOutRuns(net: Network, main: NodeId, child: NodeId, peer: NodeId, args: Args, clock: int)
      returns (states: seq<State>)
    requires Trio(net, main, child, peer) && args.name != "" && args.entry != ""
    ensures IsRun(net, states, WayOut(main, child, peer, args, clock))
  {
    hide Next;
    TrioRoles(net, main, child, peer);
    var steps := WayOut(main, child, peer, args, clock);
    var s0 := Begin(net);
    NextDoes(net, s0, steps[0], main);
    AddIsSentDown(net, s0, main, args, clock);
    var s1 := Next(net, s0, steps[0]);
    NextDoes(net, s1, steps[1], main);
    DownIsPublished(net, s1, child, steps[1].letter, peer);
    var s2 := Next(net, s1, steps[1]);
    states := [s0, s1, s2, Next(net, s2, steps[2])];
  }

  /** After such a run the peer lists what was added at the main process. */
  lemma AddsGoOut(net: Network, main: NodeId, child: NodeId, peer: NodeId, args: Args, clock: int)
      returns (states: seq<State>)
    requires Trio(net, main, child, peer) && args.name != "" && args.name != HEARTBEAT && args.entry != ""
    ensures IsRun(net, states, WayOut(main, child, peer, args, clock)) && peer in states[3].events
    ensures InAnswer(Answered(states, 3, peer, args.name, clock), args.entry)
  {
    hide IsRun;
    var steps := WayOut(main, child, peer, args, clock);
    TrioRoles(net, main, child, peer);
    states := WayOutRuns(net, main, child, peer, args, clock);
    RunLength(net, states, steps);
    assert steps[..3] == steps;
    assert InWindow(steps, clock);
    assert WritesAt(net, steps[2], peer, args.name, args.entry);
    assert LastAt(net, steps, 3, peer, args.name, args.entry, 2);
    ListsWhatWasAddedLast(net, states, steps, 3, peer, args.name, args.entry, clock, clock);
  }

  lemma RunLength(net: Network, states: seq<State>, steps: seq<Step>)
    requires IsRun(net, states, steps)
    ensures |states| == |steps| + 1
  {
  }

  // ----- In -----

  /** An Add at the peer, passed up by the child and taken by the main process; then a Remove
      in the same way. */
  function WayIn(main: NodeId, child: NodeId, peer: NodeId, args: Args, clock: int): seq<Step> {
    var (add, remove) := (Msg(0, DirectoryAdd, args), Msg(1, DirectoryRemove, args));
    [ClientAdd(peer, args, clock), HandleCopy(Letter(child, add), clock), HandleUp(Letter(main, add), clock),
     ClientRemove(peer, args, clock), HandleCopy(Letter(child, remove), clock), HandleUp(Letter(main, remove), clock)]
  }

  lemma WayInRuns(net: Network, main: NodeId, child: NodeId, peer: NodeId, args: Args, clock: int)
      returns (states: seq<State>)
    requires Trio(net, main, child, peer) && args.name != "" && args.name != HEARTBEAT && args.entry != ""
    ensures IsRun(net, states, WayIn(main, child, peer, args, clock))
  {
    hide Next;
    TrioRoles(net, main, child, peer);
    var steps := WayIn(main, child, peer, args, clock);
    var s0 := Begin(net);
    NextDoes(net, s0, steps[0], main);
    AddIsSent(net, s0, peer, child, args, clock);
    var s1 := Next(net, s0, steps[0]);
    NextDoes(net, s1, steps[1], main);
    CopyIsPassedUp(net, s1, steps[1].letter, clock);
    var s2 := Next(net, s1, steps[1]);
    NextDoes(net, s2, steps[2], main);
    UpKeepsIds(net, s2, steps[2].letter, clock);
    var s3 := Next(net, s2, steps[2]);
    NextDoes(net, s3, steps[3], main);
    RemoveIsPublished(net, s3, child, peer, args, clock);
    var s4 := Next(net, s3, steps[3]);
    NextDoes(net, s4, steps[4], main);
    CopyIsPassedUp(net, s4, steps[4].letter, clock);
    var s5 := Next(net, s4, steps[4]);
    states := [s0, s1, s2, s3, s4, s5, Next(net, s5, steps[5])];
  }

  /** In such a run the main process lists what was added at the peer, and no more once it has
      been removed there. */
  lemma AddsAndRemovesComeIn(net: Network, main: NodeId, child: NodeId, peer: NodeId, args: Args, clock: int)
      returns (states: seq<State>)
    requires Trio(net, main, child, peer) && args.name != "" && args.name != HEARTBEAT && args.entry != ""
    ensures IsRun(net, states, WayIn(main, child, peer, args, clock))
    ensures main in states[3].events && InAnswer(Answered(states, 3, main, args.name, clock), args.entry)
    ensures main in states[6].events && !InAnswer(Answered(states, 6, main, args.name, clock), args.entry)
  {
    hide IsRun;
    var steps := WayIn(main, child, peer, args, clock);
    states := WayInRuns(net, main, child, peer, args, clock);
    RunLength(net, states, steps);
    assert steps[..6] == steps && InWindow(steps, clock) && InWindow(steps[..3], clock);
    assert WritesAt(net, steps[2], main, args.name, args.entry) && WritesAt(net, steps[5], main, args.name, args.entry);
    assert LastAt(net, steps, 3, main, args.name, args.entry, 2);
    ListsWhatWasAddedLast(net, states, steps, 3, main, args.name, args.entry, clock, clock);
    ListsWhatWasAddedLast(net, states, steps, 6, main, args.name, args.entry, clock, clock);
  }
}
