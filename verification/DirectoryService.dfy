/** The directory as its clients and its peers reach it: signature checks, limits, and what
    is passed on.  Each operation on the store is one event of the node's history, and each
    handler does what the corresponding step of the replicated directories does. */
module DirectoryService {
  import opened Wrappers
  import opened TimedStore
  import opened Lifetimes
  import opened Roles
  import opened Confidential
  import W = Wildcard
  import M = Memory
  import R = Replication

  const ADD := "Directory.Add"
  const REMOVE := "Directory.Remove"

  datatype Message = Message(context: string, args: EntryArgs)

  /** What a client gets: a status, or nothing. */
  datatype Response = Success | Error | NoResponse

  datatype Entries = Unanswered | Answered(entries: seq<string>)

  // ----- Limits -----

  /** What a limit leaves of a list: all of it in order, or that many of it in any order. */
  ghost predicate Limited(all: seq<string>, limit: int, some: seq<string>) {
    if 0 < limit < |all| then |some| == limit && multiset(some) <= multiset(all) else some == all
  }

  predicate AllDifferent(values: seq<string>) {
    forall i, j | 0 <= i < j < |values| :: values[i] != values[j]
  }

  lemma {:induction false} CountOnce(values: seq<string>, v: string)
    requires AllDifferent(values)
    ensures multiset(values)[v] <= 1
  {
    if values != [] {
      var n := |values| - 1;
      assert values == values[..n] + [values[n]];
      CountOnce(values[..n], v);
      if values[n] == v {
        assert v !in values[..n];
      }
    }
  }

  lemma CountTwice(values: seq<string>, i: nat, j: nat)
    requires i < j < |values| && values[i] == values[j]
    ensures 2 <= multiset(values)[values[i]]
  {
    assert values == values[..j] + [values[j]] + values[j + 1..];
    assert values[i] in values[..j];
  }

  /** A limited answer has no repeats if the list has none, and the size that was asked for
      as far as there is enough. */
  lemma LimitedAnswer(all: seq<string>, limit: int, some: seq<string>)
    requires AllDifferent(all) && Limited(all, limit, some)
    ensures AllDifferent(some) && forall v | v in some :: v in all
    ensures |some| == if 0 < limit && limit < |all| then limit else |all|
  {
    forall i, j | 0 <= i < j < |some| ensures some[i] != some[j] {
      if some[i] == some[j] {
        CountTwice(some, i, j);
        CountOnce(all, some[i]);
      }
    }
    forall v | v in some ensures v in all {
      assert v in multiset(some);
    }
  }

  /** The directory's own lists never repeat a value. */
  lemma ListsAllDifferent(events: seq<Event>, key: string, clock: int)
    requires key != ""
    ensures AllDifferent(List(Run(events), key, clock).1.values)
  {
    RunDistinct(events);
  }

  function Swapped(values: seq<string>, i: nat, j: nat): seq<string>
    requires i < |values| && j < |values|
  {
    values[i := values[j]][j := values[i]]
  }

  /** The swaps of places `i` down to 1, each with a drawn place up to it. */
  function Shuffled(values: seq<string>, i: nat, draw: nat -> nat): seq<string>
    requires (forall k :: draw(k) <= k) && (values != [] ==> i < |values|) && (values == [] ==> i == 0)
    decreases i
  {
    if i == 0 then values else Shuffled(Swapped(values, i, draw(i)), i - 1, draw)
  }

  method Swap(entries: array<string>, i: nat, j: nat)
    requires j <= i < entries.Length
    modifies entries
    ensures entries[..] == Swapped(old(entries[..]), i, j)
  {
    entries[i], entries[j] := entries[j], entries[i];
  }

  /** `rand.Shuffle`: swaps each place, from the last down, with a drawn place before it. */
  method Shuffle(entries: array<string>, draw: nat -> nat)
    requires forall i :: draw(i) <= i
    modifies entries
    ensures entries[..] == Shuffled(old(entries[..]), LastPlace(old(entries[..])), draw)
    ensures multiset(entries[..]) == multiset(old(entries[..]))
  {
    if entries.Length == 0 {
      return;
    }
    var i := entries.Length - 1;
    while i > 0
      invariant 0 <= i < entries.Length && multiset(entries[..]) == multiset(old(entries[..]))
      invariant Shuffled(entries[..], i, draw) == Shuffled(old(entries[..]), LastPlace(old(entries[..])), draw)
    {
      SwappedMultiset(entries[..], i, draw(i));
      Swap(entries, i, draw(i));
      i := i - 1;
    }
  }

  function LastPlace(values: seq<string>): nat {
    if values == [] then 0 else |values| - 1
  }

  /** What is behind the places that are still to be swapped stays. */
  lemma {:induction false} ShuffledBehind(values: seq<string>, i: nat, draw: nat -> nat)
    requires (forall k :: draw(k) <= k) && i < |values|
    ensures |Shuffled(values, i, draw)| == |values| && Shuffled(values, i, draw)[i + 1..] == values[i + 1..]
    decreases i
  {
    if i != 0 {
      var swapped := Swapped(values, i, draw(i));
      ShuffledBehind(swapped, i - 1, draw);
      assert Shuffled(values, i, draw)[i + 1..] == Shuffled(values, i, draw)[i..][1..] == swapped[i..][1..];
      assert swapped[i..][1..] == values[i + 1..];
    }
  }

  /** Only the draws for the places that are swapped matter. */
  lemma {:induction false} SameDraws(values: seq<string>, i: nat, draw: nat -> nat, draw': nat -> nat)
    requires (forall k :: draw(k) <= k) && (forall k :: draw'(k) <= k) && i < |values|
    requires forall k: nat | k <= i :: draw(k) == draw'(k)
    ensures Shuffled(values, i, draw) == Shuffled(values, i, draw')
    decreases i
  {
    if i != 0 {
      SameDraws(Swapped(values, i, draw(i)), i - 1, draw, draw');
    }
  }

  lemma SwappedMultiset(values: seq<string>, i: nat, j: nat)
    requires j <= i < |values|
    ensures multiset(Swapped(values, i, j)) == multiset(values)
  {
  }

  lemma MemberAt(values: seq<string>, n: nat, v: string) returns (j: nat)
    requires n <= |values| && v in multiset(values[..n])
    ensures j < n && values[j] == v
  {
    assert v in values[..n];
    j :| 0 <= j < n && values[..n][j] == v;
  }

  /** Some draws make any order of the first `i + 1` places. */
  lemma {:induction false} SomeDraws(values: seq<string>, i: nat, order: seq<string>) returns (draw: nat -> nat)
    requires i < |values| && |order| == |values| && order[i + 1..] == values[i + 1..]
    requires multiset(order[..i + 1]) == multiset(values[..i + 1])
    ensures (forall k :: draw(k) <= k) && Shuffled(values, i, draw) == order
    decreases i
  {
    if i == 0 {
      draw := k => k;
      assert order[..1] == [order[0]] && values[..1] == [values[0]] && order[0] in multiset(order[..1]);
      assert order == order[..1] + order[1..] == values[..1] + values[1..] == values;
    } else {
      assert order[i] in multiset(order[..i + 1]);
      var j := MemberAt(values, i + 1, order[i]);
      var swapped := Swapped(values, i, j);
      PlacesBefore(values, i, j, order);
      PlacesBehind(values, i, j, order);
      var rest := SomeDraws(swapped, i - 1, order);
      draw := k => if k == i then j else rest(k);
      SameDraws(swapped, i - 1, rest, draw);
    }
  }

  lemma WithoutLast(values: seq<string>, i: nat)
    requires i < |values|
    ensures multiset(values[..i]) == multiset(values[..i + 1]) - multiset{values[i]}
  {
    assert values[..i + 1] == values[..i] + [values[i]];
  }

  lemma PlacesBefore(values: seq<string>, i: nat, j: nat, order: seq<string>)
    requires i < |values| == |order| && j <= i && values[j] == order[i]
    requires multiset(order[..i + 1]) == multiset(values[..i + 1])
    ensures multiset(order[..i]) == multiset(Swapped(values, i, j)[..i])
  {
    var swapped := Swapped(values, i, j);
    assert swapped[..i + 1] == Swapped(values[..i + 1], i, j) && swapped[i] == order[i];
    hide Swapped;
    SwappedMultiset(values[..i + 1], i, j);
    WithoutLast(order, i);
    WithoutLast(swapped, i);
  }

  lemma PlacesBehind(values: seq<string>, i: nat, j: nat, order: seq<string>)
    requires i < |values| == |order| && j <= i && values[j] == order[i] && order[i + 1..] == values[i + 1..]
    ensures order[i..] == Swapped(values, i, j)[i..]
  {
    var swapped := Swapped(values, i, j);
    assert order[i..] == [order[i]] + order[i + 1..];
    assert swapped[i..] == [swapped[i]] + values[i + 1..];
  }

  /** Every order of a list is what some draws make of it. */
  lemma EveryOrder(values: seq<string>, order: seq<string>) returns (draw: nat -> nat)
    requires multiset(order) == multiset(values)
    ensures (forall k :: draw(k) <= k) && Shuffled(values, LastPlace(values), draw) == order
  {
    assert |order| == |multiset(order)| == |values|;
    if values == [] {
      draw := k => k;
    } else {
      var n := |values| - 1;
      assert order[..n + 1] == order && values[..n + 1] == values;
      draw := SomeDraws(values, n, order);
    }
  }

  /** What a limit leaves of a list, for these draws. */
  function Cut(all: seq<string>, limit: int, draw: nat -> nat): seq<string>
    requires forall k :: draw(k) <= k
  {
    var shuffled := Shuffled(all, LastPlace(all), draw);
    if 0 < limit < |all| && limit <= |shuffled| then shuffled[..limit] else all
  }

  /** Cuts a shuffled list short, or leaves it alone. */
  method Limit(entries: array<string>, limit: int, draw: nat -> nat) returns (some: seq<string>)
    requires forall i :: draw(i) <= i
    modifies entries
    ensures some == Cut(old(entries[..]), limit, draw)
    ensures Limited(old(entries[..]), limit, some)
  {
    if 0 < limit < entries.Length {
      Shuffle(entries, draw);
      assert entries[..] == entries[..limit] + entries[limit..];
      return entries[..limit];
    }
    return entries[..];
  }

  /** A limit leaves exactly what it may: every selection of that size, in every order, for
      some draws. */
  lemma EverySelection(all: seq<string>, limit: int, some: seq<string>) returns (draw: nat -> nat)
    requires Limited(all, limit, some)
    ensures (forall k :: draw(k) <= k) && Cut(all, limit, draw) == some
  {
    if 0 < limit < |all| {
      var others := ToSeq(multiset(all) - multiset(some));
      draw := EveryOrder(all, some + others);
      assert (some + others)[..limit] == some;
    } else {
      draw := k => k;
    }
  }

  lemma {:induction false} ToSeq(m: multiset<string>) returns (values: seq<string>)
    ensures multiset(values) == m
  {
    values := [];
    var rest := m;
    while rest != multiset{}
      invariant multiset(values) + rest == m
      decreases |rest|
    {
      var v :| v in rest;
      values, rest := values + [v], rest - multiset{v};
    }
  }

  // ----- What the handlers do -----

  /** The operations on the store, and the messages to the room, to a child and to the main
      process. */
  datatype Effect = Effect(events: seq<Event>, published: seq<Message>, downs: seq<Message>, ups: seq<Message>)

  const NO_EFFECT := Effect([], [], [], [])

  /** A client's Add that its rule lets through.  `delivered` says whether a child answers the
      request sent down. */
  function AddEffect(node: R.Node, args: EntryArgs, clock: int, delivered: bool): Effect {
    var ipc, accepted, message := HasIPC(node.options), Accepted(AddEvent(args, clock)), Message(ADD, args);
    Effect([AddEvent(args, clock)],
           if accepted && node.InRoom() && (ipc ==> delivered) then [message] else [],
           if accepted && ipc then [message] else [],
           [])
  }

  /** A client's Remove that its rule lets through. */
  function RemoveEffect(node: R.Node, args: EntryArgs, clock: int): Effect {
    Effect([RemoveEvent(args, clock)], if node.InRoom() then [Message(REMOVE, args)] else [], [], [])
  }

  /** A message from the room. */
  function ReceiveEffect(node: R.Node, message: Message, clock: int): Effect {
    if message.args.name == R.HEARTBEAT then NO_EFFECT
    else if ReceiveMode(node.options).ChildMode? then Effect([], [], [], [message])
    else Effect(EventsOf(message, clock), [], [], [])
  }

  /** A message that a child has sent up. */
  function UpEffect(message: Message, clock: int): Effect {
    Effect(EventsOf(message, clock), [], [], [])
  }

  /** A message that the main process has sent down. */
  function DownEffect(node: R.Node, message: Message): Effect {
    Effect([], if message.context != "" && node.InRoom() then [message] else [], [], [])
  }

  class Directory {
    const node: R.Node
    const verify: Verifier
    const memory: M.Memory
    const rules: ConfidentialRules
    var published: seq<Message>   // to the room
    var downs: seq<Message>       // to a child process
    var ups: seq<Message>         // to the main process
    ghost var events: seq<Event>  // all that was done to the store

    constructor (domain: string, node: R.Node, engine: W.Engine, verify: Verifier)
      ensures Valid() && events == [] && published == [] && downs == [] && ups == []
      ensures this.node == node && this.verify == verify
    {
      this.node, this.verify := node, verify;
      memory := new M.Memory(domain);
      rules := new ConfidentialRules(engine);
      published, downs, ups, events := [], [], [], [];
    }

    ghost predicate Valid()
      reads this, memory, memory.Repr, rules, rules.matcher
    {
      && memory.Valid() && rules.matcher.Valid()
      && this !in memory.Repr && rules !in memory.Repr && rules.matcher !in memory.Repr
      && memory.contents == Run(events)
    }

    /** What the rules in force say to a List, and to an Add or Remove. */
    ghost function OnList(args: ListArgs, clock: int): Verdict
      reads rules
    {
      ListVerdict(rules.matcher.engine, rules.rules, args, clock, verify)
    }

    ghost function OnEntry(args: EntryArgs, clock: int): Verdict
      reads rules
    {
      EntryVerdict(rules.matcher.engine, rules.rules, args, clock, verify)
    }

    /** The cache drops lists. */
    method Evict(keys: set<string>)
      requires Valid()
      modifies memory, `events
      ensures Valid() && events == old(events) + [TimedStore.Evict(keys)]
    {
      memory.Evict(keys);
      events := events + [TimedStore.Evict(keys)];
      RunOneMore(old(events), TimedStore.Evict(keys));
    }

    /** `PublishJson`: without a topic, nothing. */
    method Publish(message: Message)
      modifies `published
      ensures published == if node.InRoom() then old(published) + [message] else old(published)
    {
      if node.InRoom() {
        published := published + [message];
      }
    }

    method ListStore(key: string, clock: int) returns (ok: bool, result: array<string>)
      requires Valid()
      modifies memory.Repr, `events
      ensures Valid() && events == old(events) + [EList(key, clock)] && fresh(result) && result !in memory.Repr
      ensures (if ok then Listed(result[..]) else Invalid) == TimedStore.List(Run(old(events)), key, clock).1
    {
      ok, result := memory.List(key, clock);
      events := events + [EList(key, clock)];
      RunOneMore(old(events), EList(key, clock));
    }

    /** Answers a List request: not at all if the rule for it wants a signature that does
        not hold, else with what is stored, limited. */
    method List(args: ListArgs, clock: int, draw: nat -> nat) returns (answer: Entries)
      requires Valid() && forall i :: draw(i) <= i
      modifies memory.Repr, rules.matcher, `events
      ensures Valid()
      ensures
        if old(OnList(args, clock)) != Granted then
          answer == Unanswered && events == old(events) && memory.contents == old(memory.contents)
        else
          && events == old(events) + [EList(args.name, clock)]
          && match TimedStore.List(Run(old(events)), args.name, clock).1
             case Listed(all) =>
               && answer.Answered? && answer.entries == Cut(all, args.limit, draw)
               && AllDifferent(answer.entries) && (forall v | v in answer.entries :: v in all)
               && |answer.entries| == if 0 < args.limit < |all| then args.limit else |all|
             case _ => answer == Unanswered
    {
      var info := rules.GetConfidentialInfo(args.name, args.publicKey);
      if info.confidential && VerifyList(args, info, clock, verify) != Granted {
        return Unanswered;
      }
      var ok, entries := ListStore(args.name, clock);
      if !ok {
        return Unanswered;
      }
      ghost var all := entries[..];
      var some := Limit(entries, args.limit, draw);
      ListsAllDifferent(old(events), args.name, clock);
      LimitedAnswer(all, args.limit, some);
      return Answered(some);
    }

    method AddToStore(args: EntryArgs, clock: int) returns (ok: bool)
      requires Valid()
      modifies memory.Repr, `events
      ensures Valid() && events == old(events) + [AddEvent(args, clock)]
      ensures ok <==> Accepted(AddEvent(args, clock))
      ensures ok <==> args.name != "" && args.entry != ""
      ensures !ok ==> memory.contents == old(memory.contents)
    {
      ok := memory.Add(args.name, args.entry, R.TimeToLive(args.mode), clock);
      events := events + [AddEvent(args, clock)];
      RunOneMore(old(events), AddEvent(args, clock));
      if !ok {
        Answers(Run(old(events)), AddEvent(args, clock));
      }
    }

    method RemoveFromStore(args: EntryArgs, clock: int) returns (ok: bool)
      requires Valid()
      modifies memory.Repr, `events
      ensures Valid() && events == old(events) + [RemoveEvent(args, clock)]
      ensures ok <==> Accepted(RemoveEvent(args, clock))
      ensures ok <==> args.name != ""
    {
      ok := memory.Remove(args.name, args.entry, clock);
      events := events + [RemoveEvent(args, clock)];
      RunOneMore(old(events), RemoveEvent(args, clock));
    }

    /** The handler has had this effect, and no other. */
    twostate predicate Had(effect: Effect)
      reads this
    {
      && events == old(events) + effect.events && published == old(published) + effect.published
      && downs == old(downs) + effect.downs && ups == old(ups) + effect.ups
    }

    /** What the rule for an Add or Remove says to it. */
    method Consult(args: EntryArgs, clock: int) returns (verdict: Verdict)
      requires Valid()
      modifies rules.matcher
      ensures Valid() && verdict == old(OnEntry(args, clock))
    {
      var info := rules.GetConfidentialInfo(args.name, args.publicKey);
      return if info.readOnly then VerifyEntry(args, info, clock, verify) else Granted;
    }

    /** Tells others of an Add that the store has accepted. */
    method PassOn(message: Message, delivered: bool) returns (response: Response)
      modifies `published, `downs
      ensures downs == old(downs) + if HasIPC(node.options) then [message] else []
      ensures published
              == old(published) + if node.InRoom() && (HasIPC(node.options) ==> delivered) then [message] else []
      ensures response == if HasIPC(node.options) && !delivered then Error else Success
    {
      if HasIPC(node.options) {
        downs := downs + [message];
        if !delivered {
          return Error;
        }
      }
      Publish(message);
      return Success;
    }

    /** A client's Add that its rule lets through. */
    method AddGranted(args: EntryArgs, clock: int, delivered: bool) returns (response: Response)
      requires Valid()
      modifies memory.Repr, `events, `published, `downs
      ensures Valid() && Had(AddEffect(node, args, clock, delivered))
      ensures args.name == "" || args.entry == "" ==> response == Error && memory.contents == old(memory.contents)
      ensures args.name != "" && args.entry != "" ==>
                response == if HasIPC(node.options) && !delivered then Error else Success
    {
      var ok := AddToStore(args, clock);
      if !ok {
        return Error;
      }
      response := PassOn(Message(ADD, args), delivered);
    }

    /** A client's Add. */
    method Add(args: EntryArgs, clock: int, delivered: bool) returns (response: Response)
      requires Valid()
      modifies memory.Repr, rules.matcher, `events, `published, `downs
      ensures Valid()
      ensures var verdict := old(OnEntry(args, clock));
        if verdict != Granted then
          && response == (if verdict.Refused? then Error else NoResponse)
          && Had(NO_EFFECT) && memory.contents == old(memory.contents)
        else
          && Had(AddEffect(node, args, clock, delivered))
          && if args.name == "" || args.entry == "" then
               response == Error && memory.contents == old(memory.contents)
             else
               response == if HasIPC(node.options) && !delivered then Error else Success
    {
      var verdict := Consult(args, clock);
      if verdict != Granted {
        return if verdict == Refused then Error else NoResponse;
      }
      response := AddGranted(args, clock, delivered);
    }

    /** A client's Remove that its rule lets through. */
    method RemoveGranted(args: EntryArgs, clock: int) returns (response: Response)
      requires Valid()
      modifies memory.Repr, `events, `published
      ensures Valid() && Had(RemoveEffect(node, args, clock))
      ensures response == if args.name == "" then Error else Success
    {
      var ok := RemoveFromStore(args, clock);
      Publish(Message(REMOVE, args));
      return if ok then Success else Error;
    }

    /** A client's Remove: published, even when the store refuses it, but not sent down. */
    method Remove(args: EntryArgs, clock: int) returns (response: Response)
      requires Valid()
      modifies memory.Repr, rules.matcher, `events, `published
      ensures Valid()
      ensures var verdict := old(OnEntry(args, clock));
        if verdict != Granted then
          response == NoResponse && Had(NO_EFFECT) && memory.contents == old(memory.contents)
        else
          Had(RemoveEffect(node, args, clock)) && response == if args.name == "" then Error else Success
    {
      var verdict := Consult(args, clock);
      if verdict != Granted {
        return NoResponse;
      }
      response := RemoveGranted(args, clock);
    }

    // ----- Messages from other processes -----

    /** Does what a message says, if it is an Add or a Remove; an unknown context does
        nothing here. */
    method Apply(message: Message, clock: int) returns (ok: bool)
      requires Valid()
      modifies memory.Repr, `events
      ensures Valid() && events == old(events) + EventsOf(message, clock)
      ensures ok <==> Taken(message, clock)
    {
      ok := true;
      if message.context == ADD {
        ok := AddToStore(message.args, clock);
      } else if message.context == REMOVE {
        ok := RemoveFromStore(message.args, clock);
      }
    }

    /** One message in the receive loop, None if its payload cannot be read.  The loop runs
        only where p2p is started; there a peer never has an IPC client, so that the last
        branch is never taken. */
    method Receive(received: Option<Message>, clock: int)
      requires Valid() && StartsP2P(node.options)
      modifies memory.Repr, `events, `ups
      ensures Valid()
      ensures Had(if received.None? then NO_EFFECT else ReceiveEffect(node, received.value, clock))
    {
      if received.None? {
        return;
      }
      var message := received.value;
      if message.args.name == R.HEARTBEAT {
        return;
      }
      if ReceiveMode(node.options).ChildMode? {
        ups := ups + [message];
      } else {
        var ok := Apply(message, clock);
        RolesExclude(node.options);
        if ok && HasIPC(node.options) {
          assert false;
        }
      }
    }

    /** The main process answers what a child sends up: "error" for what it cannot read, does
        not know, or its store refuses. */
    method IpcHandler(isSoroban: bool, received: Option<Message>, clock: int) returns (reply: string)
      requires Valid()
      modifies memory.Repr, `events
      ensures Valid()
      ensures Had(if !isSoroban || received.None? then NO_EFFECT else UpEffect(received.value, clock))
      ensures reply == "success" <==>
              !isSoroban || (received.Some? && received.value.context in {ADD, REMOVE} && Taken(received.value, clock))
      ensures reply != "success" ==> reply == "error" && memory.contents == old(memory.contents)
    {
      if !isSoroban {
        return "success";
      }
      if received.None? {
        return "error";
      }
      var message := received.value;
      if message.context != ADD && message.context != REMOVE {
        return "error";
      }
      var ok := Apply(message, clock);
      return if ok then "success" else "error";
    }

    /** A child publishes what its main process sends down, unless the request is of another
        type, or cannot be read. */
    method HandleDown(isIPC: bool, received: Option<Message>) returns (reply: string)
      modifies `published
      ensures Had(if !isIPC || received.None? then NO_EFFECT else DownEffect(node, received.value))
      ensures reply == if !isIPC then "unknown"
                       else if received.None? || received.value.context == "" then "error"
                       else "success"
    {
      if !isIPC {
        return "unknown";
      }
      if received.None? || received.value.context == "" {
        return "error";
      }
      Publish(received.value);
      return "success";
    }
  }

  /** What an Add or Remove request does to a store, as the nodes' histories record it. */
  function AddEvent(args: EntryArgs, clock: int): Event {
    R.EventOf(R.Msg(0, R.DirectoryAdd, Wire(args)), clock)
  }

  function RemoveEvent(args: EntryArgs, clock: int): Event {
    R.EventOf(R.Msg(0, R.DirectoryRemove, Wire(args)), clock)
  }

  function Wire(args: EntryArgs): R.Args {
    R.Args(args.name, args.entry, args.mode)
  }

  function EventsOf(message: Message, clock: int): seq<Event> {
    if message.context == ADD then [AddEvent(message.args, clock)]
    else if message.context == REMOVE then [RemoveEvent(message.args, clock)]
    else []
  }

  /** The store accepts what the message says, if it says anything. */
  predicate Taken(message: Message, clock: int) {
    if message.context == ADD then Accepted(AddEvent(message.args, clock))
    else if message.context == REMOVE then Accepted(RemoveEvent(message.args, clock))
    else true
  }

  /** What has just been added is listed, and what has just been removed is not. */
  lemma AddedIsListed(events: seq<Event>, args: EntryArgs, clock: int)
    requires args.name != "" && args.entry != ""
    ensures var s := TimedStore.Apply(Run(events), AddEvent(args, clock)).0;
      InAnswer(TimedStore.List(s, args.name, clock).1, args.entry)
  {
    var add, x := AddEvent(args, clock), Truncated(clock) + R.TimeToLive(args.mode);
    var s := TimedStore.Apply(Run(events), add).0;
    RunDistinct(events);
    ApplyHas(Run(events), add, args.name, args.entry, x);
    assert Has(Collect(s, clock), args.name, args.entry, x);
    ListAnswer(s, args.name, args.entry, clock);
  }

  lemma RemovedIsNotListed(events: seq<Event>, args: EntryArgs, clock: int)
    ensures var s := TimedStore.Apply(Run(events), RemoveEvent(args, clock)).0;
      !InAnswer(TimedStore.List(s, args.name, clock).1, args.entry)
  {
    var remove := RemoveEvent(args, clock);
    var s := TimedStore.Apply(Run(events), remove).0;
    RunDistinct(events);
    if args.name != "" {
      ListAnswer(s, args.name, args.entry, clock);
      forall x ensures !Has(Collect(s, clock), args.name, args.entry, x) {
        ApplyHas(Run(events), remove, args.name, args.entry, x);
      }
    }
  }

  lemma RunOneMore(events: seq<Event>, e: Event)
    ensures Run(events + [e]) == TimedStore.Apply(Run(events), e).0
  {
    assert (events + [e])[..|events|] == events;
  }

  // ----- The handlers' effects are steps -----

  /** A message as it is on its way. */
  function Posted(id: nat, message: Message): R.Msg {
    R.Msg(id, if message.context == REMOVE then R.DirectoryRemove else R.DirectoryAdd, Wire(message.args))
  }

  function Letters(n: R.NodeId, id: nat, messages: seq<Message>): seq<R.Letter> {
    seq(|messages|, i requires 0 <= i < |messages| => R.Letter(n, Posted(id, messages[i])))
  }

  /** The states differ by what the effect says of node `n`: its store, and the messages that
      it has sent.  A refused operation leaves no trace in a store. */
  ghost predicate Differ(net: R.Network, s: R.State, s': R.State, n: R.NodeId, id: nat, effect: Effect)
    requires n in net && s.events.Keys == net.Keys
  {
    && s'.events.Keys == net.Keys && Run(s'.events[n]) == Run(s.events[n] + effect.events)
    && (forall m | m in net && m != n :: s'.events[m] == s.events[m])
    && s'.published == s.published + Letters(n, id, effect.published)
    && s'.downs == s.downs + multiset(Letters(n, id, effect.downs))
    && s'.ups == s.ups + multiset(Letters(net[n].main, id, effect.ups))
  }

  lemma NoLetters(n: R.NodeId, id: nat)
    ensures Letters(n, id, []) == []
  {
  }

  lemma OneLetter(n: R.NodeId, id: nat, message: Message)
    ensures Letters(n, id, [message]) == [R.Letter(n, Posted(id, message))]
  {
  }

  lemma AddIsStep(net: R.Network, s: R.State, n: R.NodeId, args: EntryArgs, clock: int, delivered: bool)
    requires n in net && s.events.Keys == net.Keys && net[n].Serves()
    ensures Differ(net, s, R.Next(net, s, R.ClientAdd(n, Wire(args), clock)), n, s.nextId,
                   AddEffect(net[n], args, clock, delivered))
  {
    hide TimedStore.Add;
    NoLetters(n, s.nextId);
    NoLetters(net[n].main, s.nextId);
    OneLetter(n, s.nextId, Message(ADD, args));
    RunOneMore(s.events[n], AddEvent(args, clock));
    RefusedAnswer(Run(s.events[n]), AddEvent(args, clock));
    if !Accepted(AddEvent(args, clock)) {
      Answers(Run(s.events[n]), AddEvent(args, clock));
    }
    RolesExclude(net[n].options);
  }

  lemma RefusedAnswer(s: Store, e: Event)
    requires e.EAdd?
    ensures TimedStore.Add(s, e.key, e.value, e.ttl, e.clock).1 == Invalid <==> !Accepted(e)
  {
  }

  lemma RemoveIsStep(net: R.Network, s: R.State, n: R.NodeId, args: EntryArgs, clock: int)
    requires n in net && s.events.Keys == net.Keys && net[n].Serves()
    ensures Differ(net, s, R.Next(net, s, R.ClientRemove(n, Wire(args), clock)), n, s.nextId,
                   RemoveEffect(net[n], args, clock))
  {
    NoLetters(n, s.nextId);
    NoLetters(net[n].main, s.nextId);
    OneLetter(n, s.nextId, Message(REMOVE, args));
  }

  lemma EventsOfPosted(id: nat, message: Message, clock: int)
    requires message.context in {ADD, REMOVE}
    ensures EventsOf(message, clock) == [R.EventOf(Posted(id, message), clock)]
  {
  }

  lemma CopyIsStep(net: R.Network, s: R.State, letter: R.Letter, message: Message, clock: int)
    requires letter.node in net && s.events.Keys == net.Keys && R.Enabled(net, s, R.HandleCopy(letter, clock))
    requires letter.msg == Posted(letter.msg.id, message) && message.context in {ADD, REMOVE}
    ensures Differ(net, R.TakeCopy(s, letter), R.Next(net, s, R.HandleCopy(letter, clock)), letter.node, letter.msg.id,
                   ReceiveEffect(net[letter.node], message, clock))
  {
    EventsOfPosted(letter.msg.id, message, clock);
    NoLetters(letter.node, letter.msg.id);
    NoLetters(net[letter.node].main, letter.msg.id);
    OneLetter(net[letter.node].main, letter.msg.id, message);
    assert s.events[letter.node] + [] == s.events[letter.node];
  }

  lemma UpIsStep(net: R.Network, s: R.State, letter: R.Letter, message: Message, clock: int)
    requires letter.node in net && s.events.Keys == net.Keys && R.Enabled(net, s, R.HandleUp(letter, clock))
    requires letter.msg == Posted(letter.msg.id, message) && message.context in {ADD, REMOVE}
    ensures Differ(net, R.TakeUp(s, letter), R.Next(net, s, R.HandleUp(letter, clock)), letter.node, letter.msg.id,
                   UpEffect(message, clock))
  {
    EventsOfPosted(letter.msg.id, message, clock);
    NoLetters(letter.node, letter.msg.id);
    NoLetters(net[letter.node].main, letter.msg.id);
  }

  lemma DownIsStep(net: R.Network, s: R.State, c: R.NodeId, letter: R.Letter, message: Message)
    requires c in net && s.events.Keys == net.Keys && R.Enabled(net, s, R.HandleDown(c, letter))
    requires letter.msg == Posted(letter.msg.id, message) && message.context in {ADD, REMOVE}
    ensures Differ(net, R.TakeDown(s, letter), R.Next(net, s, R.HandleDown(c, letter)), c, letter.msg.id,
                   DownEffect(net[c], message))
  {
    NoLetters(c, letter.msg.id);
    NoLetters(net[c].main, letter.msg.id);
    OneLetter(c, letter.msg.id, message);
    assert s.events[c] + [] == s.events[c];
  }
}
