/** Directories on many nodes: peers on their own, and main processes with children.  Adds
    and Removes travel through a p2p room that may lose, repeat and reorder them, and
    between a main process and its children. */
module Replication {
  import opened Wrappers
  import opened TimedStore
  import opened Lifetimes
  import opened Roles

  const HEARTBEAT := "p2p.heartbeat"

  /** `TimeToLive` */
  function TimeToLive(mode: string): (ttl: int)
    ensures SHORTEST_TTL <= ttl && ttl % MILLISECOND == 0
  {
    if mode == "fast" then 15 * SECOND
    else if mode == "short" then MINUTE
    else if mode == "long" then 5 * MINUTE
    else 3 * MINUTE
  }

  const SHORTEST_TTL: int := 15 * SECOND

  // ----- Nodes and messages -----

  type NodeId = int

  /** `joined` says that joining the p2p room succeeded; `main` is a child's main process. */
  datatype Node = Node(options: Options, joined: bool, main: NodeId) {
    predicate Serves() {
      StartsMain(options)
    }

    predicate InRoom() {
      StartsP2P(options) && joined
    }
  }

  type Network = map<NodeId, Node>

  datatype Args = Args(name: string, entry: string, mode: string)

  datatype Context = DirectoryAdd | DirectoryRemove

  /** `id` tells client operations and heartbeats apart. */
  datatype Msg = Msg(id: nat, context: Context, args: Args)

  /** A message on its way to a node, or, sent "down", from one. */
  datatype Letter = Letter(node: NodeId, msg: Msg)

  /** What was done to each node's directory, what is on its way, and what has happened. */
  datatype State = State(
    events: map<NodeId, seq<Event>>,
    downs: multiset<Letter>,
    copies: multiset<Letter>,
    ups: multiset<Letter>,
    published: seq<Letter>,      // with the node that published it
    adds: set<Args>,             // accepted client Adds
    removes: set<Args>,          // client Removes
    nextId: nat)

  datatype Step =
    | ClientList(node: NodeId, key: string, clock: int)
    | ClientAdd(node: NodeId, args: Args, clock: int)
    | ClientRemove(node: NodeId, args: Args, clock: int)
    | Heartbeat(node: NodeId, entry: string)
    | HandleDown(node: NodeId, letter: Letter)
    | HandleCopy(letter: Letter, clock: int)
    | HandleUp(letter: Letter, clock: int)
    | LoseDown(letter: Letter)
    | LoseCopy(letter: Letter)
    | LoseUp(letter: Letter)
    | RepeatCopy(letter: Letter)
    | EvictAt(node: NodeId, keys: set<string>)

  // ----- Steps -----

  function EventOf(msg: Msg, clock: int): Event {
    match msg.context
    case DirectoryAdd => EAdd(msg.args.name, msg.args.entry, TimeToLive(msg.args.mode), clock)
    case DirectoryRemove => ERemove(msg.args.name, msg.args.entry, clock)
  }

  function Do(s: State, node: NodeId, e: Event): State
    requires node in s.events
  {
    s.(events := s.events[node := s.events[node] + [e]])
  }

  function Copies(nodes: set<NodeId>, msg: Msg): set<Letter> {
    set n | n in nodes :: Letter(n, msg)
  }

  /** Publishing reaches everybody else in the room; without a room it does nothing. */
  function Publish(net: Network, s: State, sender: NodeId, msg: Msg): State
    requires sender in net
  {
    if !net[sender].InRoom() then s
    else
      var others := set n | n in net && net[n].InRoom() && n != sender;
      s.(published := s.published + [Letter(sender, msg)], copies := s.copies + multiset(Copies(others, msg)))
  }

  /** The history of client operations. */
  function Record(s: State, args: Args, isAdd: bool): State {
    if isAdd then s.(adds := s.adds + {args}, nextId := s.nextId + 1)
    else s.(removes := s.removes + {args}, nextId := s.nextId + 1)
  }

  /** A process with an IPC client asks one of its children to publish. */
  function SendDown(net: Network, s: State, n: NodeId, msg: Msg): State
    requires n in net
  {
    if HasIPC(net[n].options) then s.(downs := s.downs + multiset{Letter(n, msg)}) else s
  }

  /** A client's Add; one that the directory refuses goes no further. */
  function AfterClientAdd(net: Network, s: State, n: NodeId, args: Args, clock: int): State
    requires n in net && n in s.events
  {
    var msg := Msg(s.nextId, DirectoryAdd, args);
    if Add(Run(s.events[n]), args.name, args.entry, TimeToLive(args.mode), clock).1 == Invalid then s
    else Publish(net, SendDown(net, Do(Record(s, args, true), n, EventOf(msg, clock)), n, msg), n, msg)
  }

  /** A client's Remove, which is published but not sent down. */
  function AfterClientRemove(net: Network, s: State, n: NodeId, args: Args, clock: int): State
    requires n in net && n in s.events
  {
    var msg := Msg(s.nextId, DirectoryRemove, args);
    Publish(net, Do(Record(s, args, false), n, EventOf(msg, clock)), n, msg)
  }

  function HeartbeatMsg(s: State, entry: string): Msg {
    Msg(s.nextId, DirectoryAdd, Args(HEARTBEAT, entry, "short"))
  }

  function NewId(s: State): State {
    s.(nextId := s.nextId + 1)
  }

  function TakeDown(s: State, letter: Letter): State {
    s.(downs := s.downs - multiset{letter})
  }

  function TakeCopy(s: State, letter: Letter): State {
    s.(copies := s.copies - multiset{letter})
  }

  function TakeUp(s: State, letter: Letter): State {
    s.(ups := s.ups - multiset{letter})
  }

  function PassUp(s: State, main: NodeId, msg: Msg): State {
    s.(ups := s.ups + multiset{Letter(main, msg)})
  }

  /** A message from the room: a heartbeat goes no further; a child passes others on; a peer
      does what they say. */
  function AfterCopy(net: Network, s: State, letter: Letter, clock: int): State
    requires letter.node in net && letter.node in s.events
  {
    var node := net[letter.node];
    if letter.msg.args.name == HEARTBEAT then s
    else if ReceiveMode(node.options).ChildMode? then PassUp(s, node.main, letter.msg)
    else Do(s, letter.node, EventOf(letter.msg, clock))
  }

  predicate Enabled(net: Network, s: State, step: Step) {
    match step
    case ClientList(n, _, _) => n in net && net[n].Serves()
    case ClientAdd(n, _, _) => n in net && net[n].Serves()
    case ClientRemove(n, _, _) => n in net && net[n].Serves()
    case Heartbeat(n, _) => n in net && net[n].InRoom()
    case HandleDown(c, letter) =>
      c in net && letter in s.downs && net[c].main == letter.node && ListensDown(net[c].options)
    case HandleCopy(letter, _) => letter in s.copies && letter.node in net
    case HandleUp(letter, _) => letter in s.ups && letter.node in net && StartsIPCService(net[letter.node].options)
    case LoseDown(letter) => letter in s.downs
    case LoseCopy(letter) => letter in s.copies
    case LoseUp(letter) => letter in s.ups
    case RepeatCopy(letter) => letter in s.copies
    case EvictAt(n, _) => n in net
  }

  function Next(net: Network, s: State, step: Step): State
    requires Enabled(net, s, step) && s.events.Keys == net.Keys
  {
    match step
    case ClientList(n, key, clock) => Do(s, n, EList(key, clock))
    case ClientAdd(n, args, clock) => AfterClientAdd(net, s, n, args, clock)
    case ClientRemove(n, args, clock) => AfterClientRemove(net, s, n, args, clock)
    case Heartbeat(n, entry) => Publish(net, NewId(s), n, HeartbeatMsg(s, entry))
    case HandleDown(c, letter) => Publish(net, TakeDown(s, letter), c, letter.msg)
    case HandleCopy(letter, clock) => AfterCopy(net, TakeCopy(s, letter), letter, clock)
    case HandleUp(letter, clock) => Do(TakeUp(s, letter), letter.node, EventOf(letter.msg, clock))
    case LoseDown(letter) => TakeDown(s, letter)
    case LoseCopy(letter) => TakeCopy(s, letter)
    case LoseUp(letter) => TakeUp(s, letter)
    case RepeatCopy(letter) => s.(copies := s.copies + multiset{letter})
    case EvictAt(n, keys) => Do(s, n, Evict(keys))
  }

  function Begin(net: Network): State {
    State(map n | n in net :: [], multiset{}, multiset{}, multiset{}, [], {}, {}, 0)
  }

  ghost predicate IsRun(net: Network, states: seq<State>, steps: seq<Step>) {
    && |states| == |steps| + 1 && states[0] == Begin(net)
    && forall k | 0 <= k < |steps| ::
         && states[k].events.Keys == net.Keys && Enabled(net, states[k], steps[k])
         && states[k + 1] == Next(net, states[k], steps[k])
  }

  // ----- What a node does -----

  /** What a step does to the directory of a node, whatever the state. */
  function Does(net: Network, step: Step, n: NodeId): Option<Event>
    requires n in net
  {
    match step
    case ClientList(m, key, clock) => if m == n then Some(EList(key, clock)) else None
    case ClientAdd(m, args, clock) =>
      if m == n && args.name != "" && args.entry != "" then Some(EventOf(Msg(0, DirectoryAdd, args), clock)) else None
    case ClientRemove(m, args, clock) => if m == n then Some(EventOf(Msg(0, DirectoryRemove, args), clock)) else None
    case HandleCopy(letter, clock) =>
      if letter.node == n && letter.msg.args.name != HEARTBEAT && ReceiveMode(net[n].options).PeerMode? then
        Some(EventOf(letter.msg, clock))
      else None
    case HandleUp(letter, clock) => if letter.node == n then Some(EventOf(letter.msg, clock)) else None
    case EvictAt(m, keys) => if m == n then Some(Evict(keys)) else None
    case _ => None
  }

  function Appended(events: seq<Event>, done: Option<Event>): seq<Event> {
    if done.Some? then events + [done.value] else events
  }

  lemma PublishKeepsEvents(net: Network, s: State, n: NodeId, msg: Msg)
    requires n in net
    ensures Publish(net, s, n, msg).events == s.events
  {
  }

  /** What a step does to the directory of `n` is in its history afterwards. */
  predicate DoneAt(net: Network, s: State, s': State, step: Step, n: NodeId)
    requires n in net && s.events.Keys == net.Keys
  {
    s'.events.Keys == net.Keys && s'.events[n] == Appended(s.events[n], Does(net, step, n))
  }

  lemma ClientAddDoes(net: Network, s: State, m: NodeId, args: Args, clock: int, n: NodeId)
    requires s.events.Keys == net.Keys && m in net && n in net
    ensures DoneAt(net, s, AfterClientAdd(net, s, m, args, clock), ClientAdd(m, args, clock), n)
  {
    hide Publish, Copies;
    var msg := Msg(s.nextId, DirectoryAdd, args);
    PublishKeepsEvents(net, SendDown(net, Do(Record(s, args, true), m, EventOf(msg, clock)), m, msg), m, msg);
  }

  lemma ClientRemoveDoes(net: Network, s: State, m: NodeId, args: Args, clock: int, n: NodeId)
    requires s.events.Keys == net.Keys && m in net && n in net
    ensures DoneAt(net, s, AfterClientRemove(net, s, m, args, clock), ClientRemove(m, args, clock), n)
  {
  }

  lemma CopyDoes(net: Network, s: State, letter: Letter, clock: int, n: NodeId)
    requires s.events.Keys == net.Keys && letter.node in net && n in net
    ensures DoneAt(net, s, AfterCopy(net, TakeCopy(s, letter), letter, clock), HandleCopy(letter, clock), n)
  {
  }

  lemma UpDoes(net: Network, s: State, letter: Letter, clock: int, n: NodeId)
    requires s.events.Keys == net.Keys && letter.node in net && n in net
    ensures DoneAt(net, s, Do(TakeUp(s, letter), letter.node, EventOf(letter.msg, clock)), HandleUp(letter, clock), n)
  {
  }

  lemma NothingDone(net: Network, s: State, s': State, step: Step, n: NodeId)
    requires s.events.Keys == net.Keys && n in net && s'.events == s.events
    requires step.Heartbeat? || step.HandleDown? || step.LoseDown? || step.LoseCopy? || step.LoseUp? || step.RepeatCopy?
    ensures DoneAt(net, s, s', step, n)
  {
  }

  lemma NextDoes(net: Network, s: State, step: Step, n: NodeId)
    requires s.events.Keys == net.Keys && Enabled(net, s, step) && n in net
    ensures DoneAt(net, s, Next(net, s, step), step, n)
  {
    hide DoneAt, Publish, AfterClientAdd, AfterClientRemove, AfterCopy, EventOf;
    match step
    case ClientList(m, key, clock) => DoDoes(net, s, step, m, EList(key, clock), n);
    case ClientAdd(m, args, clock) => ClientAddDoes(net, s, m, args, clock, n);
    case ClientRemove(m, args, clock) => ClientRemoveDoes(net, s, m, args, clock, n);
    case Heartbeat(m, entry) =>
      PublishKeepsEvents(net, NewId(s), m, HeartbeatMsg(s, entry));
      NothingDone(net, s, Next(net, s, step), step, n);
    case HandleDown(c, letter) =>
      PublishKeepsEvents(net, TakeDown(s, letter), c, letter.msg);
      NothingDone(net, s, Next(net, s, step), step, n);
    case HandleCopy(letter, clock) => CopyDoes(net, s, letter, clock, n);
    case HandleUp(letter, clock) => UpDoes(net, s, letter, clock, n);
    case EvictAt(m, keys) => DoDoes(net, s, step, m, Evict(keys), n);
    case _ => NothingDone(net, s, Next(net, s, step), step, n);
  }

  lemma DoDoes(net: Network, s: State, step: Step, m: NodeId, e: Event, n: NodeId)
    requires s.events.Keys == net.Keys && m in net && n in net
    requires Does(net, step, n) == if m == n then Some(e) else None
    ensures DoneAt(net, s, Do(s, m, e), step, n)
  {
  }

  /** What a run does to the directory of a node. */
  function History(net: Network, steps: seq<Step>, n: NodeId): seq<Event>
    requires n in net
  {
    if steps == [] then []
    else Appended(History(net, steps[..|steps| - 1], n), Does(net, steps[|steps| - 1], n))
  }

  lemma {:induction false} EventsAreHistory(net: Network, states: seq<State>, steps: seq<Step>, k: nat, n: NodeId)
    requires IsRun(net, states, steps) && k <= |steps| && n in net
    ensures states[k].events.Keys == net.Keys && states[k].events[n] == History(net, steps[..k], n)
  {
    if k != 0 {
      EventsAreHistory(net, states, steps, k - 1, n);
      NextDoes(net, states[k - 1], steps[k - 1], n);
      assert steps[..k][..k - 1] == steps[..k - 1];
    }
  }

  predicate WritesAt(net: Network, step: Step, n: NodeId, key: string, value: string)
    requires n in net
  {
    Does(net, step, n).Some? && Writes(Does(net, step, n).value, key, value)
  }

  /** Of the first `k` steps, `j` is the last that writes the pair at the node. */
  predicate LastAt(net: Network, steps: seq<Step>, k: nat, n: NodeId, key: string, value: string, j: int)
    requires n in net && k <= |steps|
  {
    && 0 <= j < k && WritesAt(net, steps[j], n, key, value)
    && forall i | j < i < k :: !WritesAt(net, steps[i], n, key, value)
  }

  /** The last operation on the pair that the node has handled is an Add. */
  ghost predicate LastIsAdd(net: Network, steps: seq<Step>, k: nat, n: NodeId, key: string, value: string)
    requires n in net && k <= |steps|
  {
    exists j :: LastAt(net, steps, k, n, key, value, j) && Does(net, steps[j], n).value.EAdd?
  }

  /** The latest write in a node's history is what the last step that wrote there did. */
  lemma {:induction false} LastWriteIsLastAt(
      net: Network, steps: seq<Step>, k: nat, n: NodeId, key: string, value: string)
    requires n in net && k <= |steps|
    ensures LastWrite(History(net, steps[..k], n), key, value).Some? <==> LastIsAdd(net, steps, k, n, key, value)
  {
    if k != 0 {
      var before, done := History(net, steps[..k - 1], n), Does(net, steps[k - 1], n);
      LastWriteIsLastAt(net, steps, k - 1, n, key, value);
      assert steps[..k][..k - 1] == steps[..k - 1];
      if done.Some? {
        assert (before + [done.value])[..|before|] == before;
      }
      if WritesAt(net, steps[k - 1], n, key, value) {
        assert LastAt(net, steps, k, n, key, value, k - 1);
      } else {
        assert forall j :: LastAt(net, steps, k, n, key, value, j) <==> LastAt(net, steps, k - 1, n, key, value, j);
      }
    }
  }

  // ----- Provenance -----

  predicate Named(adds: set<Args>, key: string, value: string, ttl: int) {
    exists a :: a in adds && a.name == key && a.entry == value && TimeToLive(a.mode) == ttl
  }

  /** An Add or Remove in a directory's history was made by a client somewhere. */
  ghost predicate EventOk(s: State, e: Event) {
    && (e.EAdd? ==> Touches(e, e.key) && Named(s.adds, e.key, e.value, e.ttl))
    && (e.ERemove? ==> exists a :: a in s.removes && a.name == e.key && a.entry == e.value)
  }

  predicate MsgOk(s: State, msg: Msg) {
    && (msg.context.DirectoryAdd? ==> msg.args.name == HEARTBEAT || msg.args in s.adds)
    && (msg.context.DirectoryRemove? ==> msg.args in s.removes)
  }

  ghost predicate Accounted(net: Network, s: State) {
    && s.events.Keys == net.Keys
    && (forall a | a in s.adds :: a.name != "" && a.entry != "")
    && (forall n, e | n in s.events && e in s.events[n] :: EventOk(s, e))
    && (forall l | l in s.downs :: MsgOk(s, l.msg))
    && (forall l | l in s.copies :: MsgOk(s, l.msg))
    && (forall l | l in s.ups :: MsgOk(s, l.msg) && l.msg.args.name != HEARTBEAT)
  }

  lemma EventOkLater(s: State, s': State, e: Event)
    requires EventOk(s, e) && s.adds <= s'.adds && s.removes <= s'.removes
    ensures EventOk(s', e)
  {
    if e.EAdd? {
      var a :| a in s.adds && a.name == e.key && a.entry == e.value && TimeToLive(a.mode) == e.ttl;
      assert a in s'.adds;
    }
  }

  lemma DoAccounted(net: Network, s: State, n: NodeId, e: Event)
    requires Accounted(net, s) && n in s.events && EventOk(s, e)
    ensures Accounted(net, Do(s, n, e))
  {
    var s' := Do(s, n, e);
    forall m, d | m in s'.events && d in s'.events[m] ensures EventOk(s', d) {
      EventOkLater(s, s', if m == n && d !in s.events[n] then e else d);
    }
  }

  lemma PublishAccounted(net: Network, s: State, n: NodeId, msg: Msg)
    requires Accounted(net, s) && n in net && MsgOk(s, msg)
    ensures Accounted(net, Publish(net, s, n, msg))
  {
    forall m, e | m in s.events && e in s.events[m] ensures EventOk(Publish(net, s, n, msg), e) {
      EventOkLater(s, Publish(net, s, n, msg), e);
    }
  }

  /** Steps that add no event. */
  lemma SameEventsAccounted(net: Network, s: State, s': State)
    requires Accounted(net, s) && s'.events == s.events && s.adds <= s'.adds && s.removes <= s'.removes
    requires forall a | a in s'.adds :: a.name != "" && a.entry != ""
    requires forall l | l in s'.downs :: MsgOk(s', l.msg)
    requires forall l | l in s'.copies :: MsgOk(s', l.msg)
    requires forall l | l in s'.ups :: MsgOk(s', l.msg) && l.msg.args.name != HEARTBEAT
    ensures Accounted(net, s')
  {
    forall n, e | n in s'.events && e in s'.events[n] ensures EventOk(s', e) {
      EventOkLater(s, s', e);
    }
  }

  lemma RecordAccounted(net: Network, s: State, args: Args, isAdd: bool)
    requires Accounted(net, s) && (isAdd ==> args.name != "" && args.entry != "")
    ensures Accounted(net, Record(s, args, isAdd))
  {
    SameEventsAccounted(net, s, Record(s, args, isAdd));
  }

  lemma SendDownAccounted(net: Network, s: State, n: NodeId, msg: Msg)
    requires Accounted(net, s) && n in net && MsgOk(s, msg)
    ensures Accounted(net, SendDown(net, s, n, msg))
  {
    SameEventsAccounted(net, s, SendDown(net, s, n, msg));
  }

  /** Fewer messages on their way, and nothing else but the next number. */
  lemma FewerAccounted(net: Network, s: State, s': State)
    requires Accounted(net, s) && s'.events == s.events && s'.adds == s.adds && s'.removes == s.removes
    requires s'.downs <= s.downs && s'.copies <= s.copies && s'.ups <= s.ups
    ensures Accounted(net, s')
  {
    SameEventsAccounted(net, s, s');
  }

  lemma RepeatAccounted(net: Network, s: State, letter: Letter)
    requires Accounted(net, s) && letter in s.copies
    ensures Accounted(net, s.(copies := s.copies + multiset{letter}))
  {
    SameEventsAccounted(net, s, s.(copies := s.copies + multiset{letter}));
  }

  lemma ClientAddAccounted(net: Network, s: State, n: NodeId, args: Args, clock: int)
    requires Accounted(net, s) && n in net
    ensures Accounted(net, AfterClientAdd(net, s, n, args, clock))
  {
    var msg := Msg(s.nextId, DirectoryAdd, args);
    if Add(Run(s.events[n]), args.name, args.entry, TimeToLive(args.mode), clock).1 != Invalid {
      var s1 := Record(s, args, true);
      RecordAccounted(net, s, args, true);
      assert args in s1.adds;
      DoAccounted(net, s1, n, EventOf(msg, clock));
      var s2 := Do(s1, n, EventOf(msg, clock));
      SendDownAccounted(net, s2, n, msg);
      PublishAccounted(net, SendDown(net, s2, n, msg), n, msg);
    }
  }

  lemma ClientRemoveAccounted(net: Network, s: State, n: NodeId, args: Args, clock: int)
    requires Accounted(net, s) && n in net
    ensures Accounted(net, AfterClientRemove(net, s, n, args, clock))
  {
    var msg := Msg(s.nextId, DirectoryRemove, args);
    var s1 := Record(s, args, false);
    RecordAccounted(net, s, args, false);
    assert args in s1.removes;
    DoAccounted(net, s1, n, EventOf(msg, clock));
    PublishAccounted(net, Do(s1, n, EventOf(msg, clock)), n, msg);
  }

  /** An accepted Add passes the same checks wherever it is handled. */
  lemma ReceivedEventOk(net: Network, s: State, msg: Msg, clock: int)
    requires Accounted(net, s) && MsgOk(s, msg) && msg.args.name != HEARTBEAT
    ensures EventOk(s, EventOf(msg, clock))
  {
  }

  lemma CopyAccounted(net: Network, s: State, letter: Letter, clock: int)
    requires Accounted(net, s) && letter.node in net && MsgOk(s, letter.msg)
    ensures Accounted(net, AfterCopy(net, s, letter, clock))
  {
    var node := net[letter.node];
    if letter.msg.args.name != HEARTBEAT {
      if ReceiveMode(node.options).ChildMode? {
        SameEventsAccounted(net, s, PassUp(s, node.main, letter.msg));
      } else {
        ReceivedEventOk(net, s, letter.msg, clock);
        DoAccounted(net, s, letter.node, EventOf(letter.msg, clock));
      }
    }
  }

  lemma UpAccounted(net: Network, s: State, letter: Letter, clock: int)
    requires Accounted(net, s) && letter in s.ups && letter.node in net
    ensures Accounted(net, Do(TakeUp(s, letter), letter.node, EventOf(letter.msg, clock)))
  {
    FewerAccounted(net, s, TakeUp(s, letter));
    ReceivedEventOk(net, TakeUp(s, letter), letter.msg, clock);
    DoAccounted(net, TakeUp(s, letter), letter.node, EventOf(letter.msg, clock));
  }

  lemma StepAccounted(net: Network, s: State, step: Step)
    requires Accounted(net, s) && Enabled(net, s, step)
    ensures Accounted(net, Next(net, s, step))
  {
    match step
    case ClientList(n, key, clock) => DoAccounted(net, s, n, EList(key, clock));
    case ClientAdd(n, args, clock) => ClientAddAccounted(net, s, n, args, clock);
    case ClientRemove(n, args, clock) => ClientRemoveAccounted(net, s, n, args, clock);
    case Heartbeat(n, entry) =>
      FewerAccounted(net, s, NewId(s));
      PublishAccounted(net, NewId(s), n, HeartbeatMsg(s, entry));
    case HandleDown(c, letter) =>
      FewerAccounted(net, s, TakeDown(s, letter));
      PublishAccounted(net, TakeDown(s, letter), c, letter.msg);
    case HandleCopy(letter, clock) =>
      FewerAccounted(net, s, TakeCopy(s, letter));
      CopyAccounted(net, TakeCopy(s, letter), letter, clock);
    case HandleUp(letter, clock) => UpAccounted(net, s, letter, clock);
    case LoseDown(letter) => FewerAccounted(net, s, TakeDown(s, letter));
    case LoseCopy(letter) => FewerAccounted(net, s, TakeCopy(s, letter));
    case LoseUp(letter) => FewerAccounted(net, s, TakeUp(s, letter));
    case RepeatCopy(letter) => RepeatAccounted(net, s, letter);
    case EvictAt(n, keys) => DoAccounted(net, s, n, Evict(keys));
  }

  lemma {:induction false} RunAccounted(net: Network, states: seq<State>, steps: seq<Step>, k: nat)
    requires IsRun(net, states, steps) && k <= |steps|
    ensures Accounted(net, states[k])
  {
    if k != 0 {
      RunAccounted(net, states, steps, k - 1);
      StepAccounted(net, states[k - 1], steps[k - 1]);
    }
  }

  predicate IsClientStep(step: Step, n: NodeId) {
    (step.ClientList? || step.ClientAdd? || step.ClientRemove?) && step.node == n
  }

  /** In every run nothing is ever done to a directory under the heartbeat key but what that
      node's own clients ask for: no heartbeat, and no other message, gets in. */
  lemma HeartbeatsStayOut(net: Network, states: seq<State>, steps: seq<Step>, k: nat, n: NodeId)
    requires IsRun(net, states, steps) && k < |steps| && n in net
    ensures n in states[k].events && n in states[k + 1].events && states[k].events[n] <= states[k + 1].events[n]
    ensures forall e | e in states[k + 1].events[n][|states[k].events[n]|..] && !e.Evict? && e.key == HEARTBEAT ::
              IsClientStep(steps[k], n)
    ensures var done := Does(net, steps[k], n);
      done.Some? && !done.value.Evict? && done.value.key == HEARTBEAT ==> IsClientStep(steps[k], n)
  {
    RunAccounted(net, states, steps, k);
    NextDoes(net, states[k], steps[k], n);
    var done := Does(net, steps[k], n);
    if steps[k].HandleUp? && steps[k].letter.node == n {
      assert steps[k].letter in states[k].ups;
      assert done.value.key == steps[k].letter.msg.args.name;
    }
    if done.Some? {
      assert states[k + 1].events[n][|states[k].events[n]|..] == [done.value];
    } else {
      assert states[k + 1].events[n][|states[k].events[n]|..] == [];
    }
  }

  lemma {:induction false} LastWriteIsEvent(events: seq<Event>, key: string, value: string) returns (e: Event)
    requires LastWrite(events, key, value).Some?
    ensures e in events && e.EAdd? && e.key == key && e.value == value
  {
    var n := |events| - 1;
    if Writes(events[n], key, value) {
      e := events[n];
    } else {
      e := LastWriteIsEvent(events[..n], key, value);
    }
  }

  /** In every run, whatever is lost, repeated, reordered, expired or evicted: a value that a
      node lists under a key was named for that key by an accepted client Add somewhere; the
      last step that wrote the pair at this node was an Add; and under the heartbeat key that
      step was an Add by one of this node's own clients. */
  lemma Provenance(
      net: Network, states: seq<State>, steps: seq<Step>, k: nat, n: NodeId, key: string, value: string, clock: int)
    requires IsRun(net, states, steps) && k <= |steps| && n in net && n in states[k].events && key != ""
    requires InAnswer(List(Run(states[k].events[n]), key, clock).1, value)
    ensures exists a :: a in states[k].adds && a.name == key && a.entry == value
    ensures exists j :: LastAt(net, steps, k, n, key, value, j) && Does(net, steps[j], n).value.EAdd?
                        && (key == HEARTBEAT ==> steps[j].ClientAdd? && steps[j].node == n)
  {
    var events := states[k].events[n];
    RunAccounted(net, states, steps, k);
    EventsAreHistory(net, states, steps, k, n);
    ListAnswer(Run(events), key, value, clock);
    var x :| Has(Collect(Run(events), clock), key, value, x);
    StoredExactly(events, key, value, x);
    var e := LastWriteIsEvent(events, key, value);
    assert EventOk(states[k], e);
    LastWriteIsLastAt(net, steps, k, n, key, value);
    var j :| LastAt(net, steps, k, n, key, value, j) && Does(net, steps[j], n).value.EAdd?;
    HeartbeatsStayOut(net, states, steps, j, n);
  }
}
