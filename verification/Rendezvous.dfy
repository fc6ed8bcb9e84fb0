/** The rendezvous: two parties that share a key exchange Ping and Pong through a directory
    that others use too.  After each message both move on to the directory named by the
    hash of the last payload.  Any number of matched pairs run interleaved, one remote call
    at a time, over one store whose entries may expire at any time and which may refuse a
    Remove. */
module Rendezvous {
  import opened Rpc
  import Text

  // ----- Symbolic terms -----

  type Identity = int

  datatype Role = Initiator | Contributor

  /** "Ping" or "Pong" with a round number and a time. */
  datatype Message = Message(from: Role, counter: nat, time: string)

  /** The line that is encrypted. */
  function Print(m: Message): string {
    Text.Line(if m.from.Initiator? then "Ping" else "Pong", m.counter, m.time)
  }

  /** The line determines the message, so the message may stand for the line. */
  lemma PrintInjective(m: Message, m': Message)
    requires Print(m) == Print(m')
    ensures m == m'
  {
    var word := (r: Role) => if r.Initiator? then "Ping" else "Pong";
    Text.LinesDiffer(word(m.from), m.counter, m.time, word(m'.from), m'.counter, m'.time);
    assert "Ping"[1] != "Pong"[1];
  }

  /** Keys, ciphertexts, hashes, and whatever else is stored.  Two parties' shared key is
      the unordered pair of their identities. */
  datatype Term =
    | Shared(parties: set<Identity>)
    | Enc(key: Term, nonce: int, message: Message)
    | Hash(preimage: Term)
    | Other(name: string)

  type Store = map<Term, seq<Term>>

  function List(store: Store, directory: Term): seq<Term> {
    if directory in store then store[directory] else []
  }

  function Put(store: Store, directory: Term, value: Term): Store {
    if value in List(store, directory) then store else store[directory := List(store, directory) + [value]]
  }

  /** Without the first occurrence of the value. */
  function Less(values: seq<Term>, value: Term): seq<Term> {
    if values == [] then []
    else if values[0] == value then values[1..]
    else [values[0]] + Less(values[1..], value)
  }

  function Drop(store: Store, directory: Term, value: Term): Store {
    store[directory := Less(List(store, directory), value)]
  }

  /** Some values are left, in their order. */
  predicate Thinned(values: seq<Term>, left: seq<Term>) {
    if values == [] then left == []
    else
      var n := |values| - 1;
      Thinned(values[..n], left)
      || (left != [] && left[|left| - 1] == values[n] && Thinned(values[..n], left[..|left| - 1]))
  }

  // ----- The two parties -----

  datatype Phase = Sending | Polling(polls: nat) | Taking | Done | TimedOut | Failed

  /** `box` is the key shared with the peer, `position` counts the payloads sent and taken so
      far; `received` holds what was decrypted. */
  datatype Party = Party(role: Role, box: Term, phase: Phase, directory: Term, payload: Term,
                         counter: nat, iterations: int, position: nat, received: seq<Message>)
  {
    predicate Running() {
      phase.Sending? || phase.Polling? || phase.Taking?
    }
  }

  const POLLS := 10

  /** Where a party goes at the head of its loop. */
  function LoopHead(role: Role, iterations: int): Phase {
    if iterations <= 0 then Done else if role.Initiator? then Sending else Polling(0)
  }

  /** The key that one identity shares with another. */
  function Box(own: Identity, peer: Identity): Term {
    Shared({own, peer})
  }

  function Start(role: Role, box: Term, iterations: int): Party {
    Party(role, box, LoopHead(role, iterations), Hash(box), Other(""), 1, iterations, 0, [])
  }

  function Send(p: Party, nonce: int, time: string): Party {
    var payload := Enc(p.box, nonce, Message(p.role, p.counter, time));
    var sent := p.(payload := payload, directory := Hash(payload), position := p.position + 1);
    if p.role.Initiator? then sent.(phase := Polling(0))
    else sent.(counter := p.counter + 1, iterations := p.iterations - 1, phase := LoopHead(p.role, p.iterations - 1))
  }

  function Poll(p: Party, answer: seq<Term>): Party
    requires p.phase.Polling?
  {
    match Judge(p.phase.polls + 1, POLLS, answer)
    case Again => p.(phase := Polling(p.phase.polls + 1))
    case Timeout => p.(phase := TimedOut)
    case Got(value) => p.(phase := Taking, payload := value)
  }

  function Take(p: Party): Party {
    if !p.payload.Enc? || p.payload.key != p.box then p.(phase := Failed)
    else
      var taken := p.(directory := Hash(p.payload), received := p.received + [p.payload.message],
                        position := p.position + 1);
      if p.role.Contributor? then taken.(phase := Sending)
      else taken.(counter := p.counter + 1, iterations := p.iterations - 1, phase := LoopHead(p.role, p.iterations - 1))
  }

  // ----- Sessions over one store -----

  /** A matched pair, and all payloads they have sent, in order. */
  datatype Session = Session(initiator: Party, contributor: Party, log: seq<Term>) {
    function Member(role: Role): Party {
      if role.Initiator? then initiator else contributor
    }

    function With(p: Party): Session {
      if p.role.Initiator? then this.(initiator := p) else this.(contributor := p)
    }

    function Key(): Term {
      initiator.box
    }
  }

  datatype State = State(store: Store, sessions: seq<Session>)

  datatype Step =
    | Act(session: nat, role: Role, nonce: int, time: string)
    | Refused(session: nat, role: Role)
    | Abort(session: nat, role: Role)
    | Expire(left: Store)
    | ForeignAdd(directory: Term, value: Term)
    | ForeignRemove(directory: Term, value: Term)

  /** The directories that only the holders of the key use. */
  predicate Exchange(key: Term, directory: Term) {
    directory.Hash? && (directory.preimage == key || (directory.preimage.Enc? && directory.preimage.key == key))
  }

  /** Other clients use other directories; whatever expires, the rest stays in order. */
  ghost predicate Enabled(s: State, step: Step) {
    match step
    case Act(i, role, _, _) => i < |s.sessions| && s.sessions[i].Member(role).Running()
    case Refused(i, role) => i < |s.sessions| && s.sessions[i].Member(role).phase.Taking?
    case Abort(i, role) => i < |s.sessions| && s.sessions[i].Member(role).Running()
    case Expire(left) => forall d :: Thinned(List(s.store, d), List(left, d))
    case ForeignAdd(d, _) => forall i | 0 <= i < |s.sessions| :: !Exchange(s.sessions[i].Key(), d)
    case ForeignRemove(d, _) => forall i | 0 <= i < |s.sessions| :: !Exchange(s.sessions[i].Key(), d)
  }

  /** One remote call of one party, with what it computes until its next call. */
  function ActOn(store: Store, x: Session, role: Role, nonce: int, time: string): (Store, Session)
    requires x.Member(role).Running()
  {
    match x.Member(role).phase
    case Sending => SendOn(store, x, role, nonce, time)
    case Polling(_) => (store, PollOn(store, x, role))
    case Taking => TakeOn(store, x, role)
  }

  function SendOn(store: Store, x: Session, role: Role, nonce: int, time: string): (Store, Session) {
    var p := Send(x.Member(role), nonce, time);
    (Put(store, x.Member(role).directory, p.payload), x.With(p).(log := x.log + [p.payload]))
  }

  function PollOn(store: Store, x: Session, role: Role): Session
    requires x.Member(role).phase.Polling?
  {
    x.With(Poll(x.Member(role), List(store, x.Member(role).directory)))
  }

  function TakeOn(store: Store, x: Session, role: Role): (Store, Session) {
    var p := x.Member(role);
    (Drop(store, p.directory, p.payload), x.With(Take(p)))
  }

  /** A Remove that the store answers with an error: the party does not look and goes on. */
  function RefusedOn(x: Session, role: Role): Session {
    x.With(Take(x.Member(role)))
  }

  function Next(s: State, step: Step): State
    requires Enabled(s, step)
  {
    match step
    case Act(i, role, nonce, time) =>
      var (store, x) := ActOn(s.store, s.sessions[i], role, nonce, time);
      State(store, s.sessions[i := x])
    case Refused(i, role) => s.(sessions := s.sessions[i := RefusedOn(s.sessions[i], role)])
    case Abort(i, role) =>
      var x := s.sessions[i];
      s.(sessions := s.sessions[i := x.With(x.Member(role).(phase := Failed))])
    case Expire(left) => s.(store := left)
    case ForeignAdd(d, v) => s.(store := Put(s.store, d, v))
    case ForeignRemove(d, v) => s.(store := Drop(s.store, d, v))
  }

  // ----- What holds in every reachable state -----

  /** Link `n` of the chain of directory names: the hash of the shared key, then the hash of
      each payload in turn. */
  function Link(key: Term, log: seq<Term>, n: nat): Term
    requires n <= |log|
  {
    if n == 0 then Hash(key) else Hash(log[n - 1])
  }

  /** Who sends payload `n`. */
  function Author(n: nat): Role {
    if n % 2 == 0 then Initiator else Contributor
  }

  predicate IsPayload(t: Term, key: Term, n: nat) {
    t.Enc? && t.key == key && t.message.from == Author(n) && t.message.counter == n / 2 + 1
  }

  ghost predicate LogOk(key: Term, log: seq<Term>) {
    key.Shared? && forall n | 0 <= n < |log| :: IsPayload(log[n], key, n)
  }

  /** The messages among the first `n` payloads that the role does not send itself. */
  function Inbox(log: seq<Term>, role: Role, n: nat): seq<Message>
    requires n <= |log|
  {
    if n == 0 then []
    else Inbox(log, role, n - 1) + if Author(n - 1) == role || !log[n - 1].Enc? then [] else [log[n - 1].message]
  }

  /** One party against the log; `rounds` is the number it was started with. */
  ghost predicate PartyOk(p: Party, role: Role, key: Term, log: seq<Term>, rounds: int) {
    && p.role == role && p.box == key
    && p.position <= |log| <= p.position + 1
    && (p.position < |log| ==> Author(p.position) != role)
    && p.directory == Link(key, log, p.position)
    && p.counter == p.position / 2 + 1 && p.iterations == rounds - p.position / 2
    && p.received == Inbox(log, role, p.position)
    && PhaseOk(p, log)
  }

  ghost predicate PhaseOk(p: Party, log: seq<Term>) {
    match p.phase
    case Sending => Author(p.position) == p.role && 0 < p.iterations
    case Polling(polls) => Author(p.position) != p.role && 0 < p.iterations && polls < POLLS
    case Taking => p.position < |log| && p.payload == log[p.position] && 0 < p.iterations
    case Done => p.position % 2 == 0 && (p.iterations == 0 || (p.position == 0 && p.iterations < 0))
    case TimedOut => true
    case Failed => true
  }

  /** The only entry in any of the key's directories is the payload that was sent there. */
  ghost predicate StoreOk(key: Term, log: seq<Term>, store: Store) {
    forall d | Exchange(key, d) && List(store, d) != [] :: HoldsOne(key, log, d, List(store, d))
  }

  ghost predicate HoldsOne(key: Term, log: seq<Term>, d: Term, values: seq<Term>) {
    exists n | 0 <= n < |log| :: d == Link(key, log, n) && values == [log[n]]
  }

  predicate AllTaken(x: Session) {
    x.initiator.position == x.contributor.position
  }

  ghost predicate SessionOk(x: Session, store: Store, rounds: (int, int)) {
    && LogOk(x.Key(), x.log)
    && PartyOk(x.initiator, Initiator, x.Key(), x.log, rounds.0)
    && PartyOk(x.contributor, Contributor, x.Key(), x.log, rounds.1)
    && (x.initiator.position == |x.log| || x.contributor.position == |x.log|)
    && StoreOk(x.Key(), x.log, store)
  }

  ghost predicate Inv(s: State, rounds: seq<(int, int)>) {
    && |s.sessions| == |rounds|
    && (forall i | 0 <= i < |rounds| :: SessionOk(s.sessions[i], s.store, rounds[i]))
    && (forall i, j | 0 <= i < j < |rounds| :: s.sessions[i].Key() != s.sessions[j].Key())
  }

  // ----- The chain -----

  /** No two links of a chain are the same directory, whatever the nonces and times. */
  lemma LinksDiffer(key: Term, log: seq<Term>, m: nat, n: nat)
    requires LogOk(key, log) && m < n <= |log|
    ensures Link(key, log, m) != Link(key, log, n)
  {
    if m > 0 {
      assert IsPayload(log[m - 1], key, m - 1) && IsPayload(log[n - 1], key, n - 1);
    }
  }

  lemma {:induction false} InboxPrefix(log: seq<Term>, more: seq<Term>, role: Role, n: nat)
    requires n <= |log|
    ensures Inbox(log + more, role, n) == Inbox(log, role, n)
  {
    if n != 0 {
      InboxPrefix(log, more, role, n - 1);
    }
  }

  // ----- Each party's step keeps its session -----

  lemma SendKeepsParty(p: Party, key: Term, log: seq<Term>, rounds: int, nonce: int, time: string)
    requires LogOk(key, log) && PartyOk(p, p.role, key, log, rounds) && p.phase.Sending? && p.position == |log|
    ensures var log' := log + [Send(p, nonce, time).payload];
      LogOk(key, log') && PartyOk(Send(p, nonce, time), p.role, key, log', rounds)
  {
    var payload := Send(p, nonce, time).payload;
    InboxPrefix(log, [payload], p.role, |log|);
  }

  lemma LongerLogKeepsParty(p: Party, key: Term, log: seq<Term>, rounds: int, payload: Term)
    requires PartyOk(p, p.role, key, log, rounds) && p.position == |log| && Author(|log|) != p.role
    ensures PartyOk(p, p.role, key, log + [payload], rounds)
  {
    InboxPrefix(log, [payload], p.role, |log|);
  }

  /** What is in one of the key's directories is the payload that belongs there. */
  lemma HeldAt(key: Term, log: seq<Term>, store: Store, n: nat)
    requires LogOk(key, log) && StoreOk(key, log, store) && n <= |log|
    ensures List(store, Link(key, log, n)) == [] || (n < |log| && List(store, Link(key, log, n)) == [log[n]])
  {
    var d := Link(key, log, n);
    if n > 0 {
      assert IsPayload(log[n - 1], key, n - 1);
    }
    assert Exchange(key, d);
    if List(store, d) != [] {
      var m :| 0 <= m < |log| && d == Link(key, log, m) && List(store, d) == [log[m]];
      if m < n {
        LinksDiffer(key, log, m, n);
      } else if n < m {
        LinksDiffer(key, log, n, m);
      }
    }
  }

  lemma PutKeepsStore(key: Term, log: seq<Term>, payload: Term, store: Store)
    requires LogOk(key, log) && StoreOk(key, log, store)
    ensures StoreOk(key, log + [payload], Put(store, Link(key, log, |log|), payload))
  {
    var d', log', store' := Link(key, log, |log|), log + [payload], Put(store, Link(key, log, |log|), payload);
    HeldAt(key, log, store, |log|);
    forall d | Exchange(key, d) && List(store', d) != [] ensures HoldsOne(key, log', d, List(store', d)) {
      if d == d' {
        assert d == Link(key, log', |log|) && List(store', d) == [log'[|log|]];
      } else {
        var n :| 0 <= n < |log| && d == Link(key, log, n) && List(store, d) == [log[n]];
        assert d == Link(key, log', n) && List(store', d) == [log'[n]];
      }
    }
  }

  lemma SendKeeps(x: Session, store: Store, role: Role, nonce: int, time: string, rounds: (int, int))
    requires SessionOk(x, store, rounds) && x.Member(role).phase.Sending?
    ensures SessionOk(SendOn(store, x, role, nonce, time).1, SendOn(store, x, role, nonce, time).0, rounds)
  {
    var p, q := x.Member(role), x.Member(Peer(role));
    var payload := Send(p, nonce, time).payload;
    SendKeepsParty(p, x.Key(), x.log, Rounds(rounds, role), nonce, time);
    LongerLogKeepsParty(q, x.Key(), x.log, Rounds(rounds, Peer(role)), payload);
    PutKeepsStore(x.Key(), x.log, payload, store);
  }

  function Peer(role: Role): Role {
    if role.Initiator? then Contributor else Initiator
  }

  function Rounds(rounds: (int, int), role: Role): int {
    if role.Initiator? then rounds.0 else rounds.1
  }

  lemma PollKeepsParty(p: Party, key: Term, log: seq<Term>, rounds: int, store: Store)
    requires LogOk(key, log) && PartyOk(p, p.role, key, log, rounds) && p.phase.Polling?
    requires StoreOk(key, log, store)
    ensures PartyOk(Poll(p, List(store, p.directory)), p.role, key, log, rounds)
  {
    HeldAt(key, log, store, p.position);
  }

  lemma TakeKeepsParty(p: Party, key: Term, log: seq<Term>, rounds: int)
    requires LogOk(key, log) && PartyOk(p, p.role, key, log, rounds) && p.phase.Taking?
    ensures PartyOk(Take(p), p.role, key, log, rounds) && Take(p).position == |log|
  {
    var n := p.position;
    assert IsPayload(log[n], key, n);
    assert Inbox(log, p.role, n + 1) == Inbox(log, p.role, n) + [log[n].message];
    if p.role.Initiator? {
      assert n % 2 == 1 && (n + 1) / 2 == n / 2 + 1;
    } else {
      assert n % 2 == 0 && (n + 1) / 2 == n / 2;
    }
  }

  lemma DropFromOne(store: Store, key: Term, log: seq<Term>, directory: Term, value: Term, d: Term)
    requires StoreOk(key, log, store) && Exchange(key, d)
    ensures List(Drop(store, directory, value), d) == List(store, d) || List(Drop(store, directory, value), d) == []
  {
    var values := List(store, d);
    if d == directory && values != [] {
      assert |values| == 1 && Less(values[1..], value) == [];
    }
  }

  lemma DropKeepsStore(key: Term, log: seq<Term>, store: Store, directory: Term, value: Term)
    requires StoreOk(key, log, store)
    ensures StoreOk(key, log, Drop(store, directory, value))
  {
    forall d | Exchange(key, d) && List(Drop(store, directory, value), d) != []
      ensures HoldsOne(key, log, d, List(Drop(store, directory, value), d))
    {
      DropFromOne(store, key, log, directory, value, d);
    }
  }

  lemma PollKeeps(x: Session, store: Store, role: Role, rounds: (int, int))
    requires SessionOk(x, store, rounds) && x.Member(role).phase.Polling?
    ensures SessionOk(PollOn(store, x, role), store, rounds)
  {
    var p := x.Member(role);
    PollKeepsParty(p, x.Key(), x.log, Rounds(rounds, role), store);
    var p' := Poll(p, List(store, p.directory));
    assert p'.box == p.box && p'.position == p.position && p'.role == role;
  }

  lemma RefusedKeeps(x: Session, store: Store, role: Role, rounds: (int, int))
    requires SessionOk(x, store, rounds) && x.Member(role).phase.Taking?
    ensures SessionOk(RefusedOn(x, role), store, rounds) && RefusedOn(x, role).Key() == x.Key()
  {
    var p := x.Member(role);
    TakeKeepsParty(p, x.Key(), x.log, Rounds(rounds, role));
    var p', q := Take(p), x.Member(Peer(role));
    assert p'.box == p.box && p'.role == role && p'.position == |x.log| == q.position;
  }

  lemma TakeKeeps(x: Session, store: Store, role: Role, rounds: (int, int))
    requires SessionOk(x, store, rounds) && x.Member(role).phase.Taking?
    ensures SessionOk(TakeOn(store, x, role).1, TakeOn(store, x, role).0, rounds)
  {
    var p := x.Member(role);
    RefusedKeeps(x, store, role, rounds);
    DropKeepsStore(x.Key(), x.log, store, p.directory, p.payload);
  }

  /** Whatever one party does next, its session stays in order. */
  lemma ActKeeps(x: Session, store: Store, role: Role, nonce: int, time: string, rounds: (int, int))
    requires SessionOk(x, store, rounds) && x.Member(role).Running()
    ensures SessionOk(ActOn(store, x, role, nonce, time).1, ActOn(store, x, role, nonce, time).0, rounds)
  {
    match x.Member(role).phase
    case Sending => SendKeeps(x, store, role, nonce, time, rounds);
    case Polling(_) => PollKeeps(x, store, role, rounds);
    case Taking => TakeKeeps(x, store, role, rounds);
  }

  lemma ActKeepsKey(x: Session, store: Store, role: Role, nonce: int, time: string, rounds: (int, int))
    requires SessionOk(x, store, rounds) && x.Member(role).Running()
    ensures ActOn(store, x, role, nonce, time).1.Key() == x.Key()
  {
    var p := x.Member(role);
    assert Send(p, nonce, time).box == p.box && Take(p).box == p.box;
  }

  /** All directories that are not the key's stay as they are. */
  lemma ActElsewhere(x: Session, store: Store, role: Role, nonce: int, time: string, rounds: (int, int), d: Term)
    requires SessionOk(x, store, rounds) && x.Member(role).Running() && !Exchange(x.Key(), d)
    ensures List(ActOn(store, x, role, nonce, time).0, d) == List(store, d)
  {
    var p := x.Member(role);
    assert PartyOk(p, role, x.Key(), x.log, Rounds(rounds, role));
    assert Exchange(x.Key(), Link(x.Key(), x.log, p.position));
    assert d != p.directory;
  }

  /** A session does not mind what happens in other directories, nor that its own entries
      expire. */
  lemma ElsewhereKeeps(x: Session, store: Store, store': Store, rounds: (int, int))
    requires SessionOk(x, store, rounds)
    requires forall d | Exchange(x.Key(), d) :: List(store', d) == List(store, d) || List(store', d) == []
    ensures SessionOk(x, store', rounds)
  {
  }

  lemma KeysApart(key: Term, key': Term, d: Term)
    requires key.Shared? && key'.Shared? && Exchange(key, d) && Exchange(key', d)
    ensures key == key'
  {
  }

  lemma ActKeepsOthers(
      x: Session, y: Session, store: Store, role: Role, nonce: int, time: string,
      rounds: (int, int), rounds': (int, int))
    requires SessionOk(x, store, rounds) && SessionOk(y, store, rounds')
    requires x.Key() != y.Key() && x.Member(role).Running()
    ensures SessionOk(y, ActOn(store, x, role, nonce, time).0, rounds')
  {
    var store' := ActOn(store, x, role, nonce, time).0;
    forall d | Exchange(y.Key(), d) ensures List(store', d) == List(store, d) {
      if Exchange(x.Key(), d) {
        KeysApart(x.Key(), y.Key(), d);
      }
      ActElsewhere(x, store, role, nonce, time, rounds, d);
    }
    ElsewhereKeeps(y, store, store', rounds');
  }

  lemma ActStepKeepsInv(s: State, j: nat, role: Role, nonce: int, time: string, rounds: seq<(int, int)>)
    requires Inv(s, rounds) && Enabled(s, Act(j, role, nonce, time))
    ensures Inv(Next(s, Act(j, role, nonce, time)), rounds)
  {
    var x := s.sessions[j];
    var store' := ActOn(s.store, x, role, nonce, time).0;
    ActKeepsKey(x, s.store, role, nonce, time, rounds[j]);
    ActKeeps(x, s.store, role, nonce, time, rounds[j]);
    forall i | 0 <= i < |rounds| && i != j ensures SessionOk(s.sessions[i], store', rounds[i]) {
      ActKeepsOthers(x, s.sessions[i], s.store, role, nonce, time, rounds[j], rounds[i]);
    }
  }

  /** Every session stays in order under a store in which its own directories are as they
      were, or have lost what they held. */
  lemma StoreStepKeepsInv(s: State, store': Store, rounds: seq<(int, int)>)
    requires Inv(s, rounds)
    requires forall i, d | 0 <= i < |rounds| && Exchange(s.sessions[i].Key(), d) ::
               List(store', d) == List(s.store, d) || List(store', d) == []
    ensures Inv(s.(store := store'), rounds)
  {
    forall i | 0 <= i < |rounds| ensures SessionOk(s.sessions[i], store', rounds[i]) {
      ElsewhereKeeps(s.sessions[i], s.store, store', rounds[i]);
    }
  }

  lemma ThinnedSingle(values: seq<Term>, left: seq<Term>)
    requires |values| <= 1 && Thinned(values, left)
    ensures left == values || left == []
  {
    if values != [] && left != [] {
      assert values[..0] == [] && !Thinned([], left);
      assert left == left[..|left| - 1] + [values[0]];
    }
  }

  /** Of one entry either it is left or nothing. */
  lemma ThinnedOne(x: Session, store: Store, left: Store, rounds: (int, int), d: Term)
    requires SessionOk(x, store, rounds) && Exchange(x.Key(), d) && Thinned(List(store, d), List(left, d))
    ensures List(left, d) == List(store, d) || List(left, d) == []
  {
    hide Thinned;
    if List(store, d) != [] {
      assert HoldsOne(x.Key(), x.log, d, List(store, d));
    }
    ThinnedSingle(List(store, d), List(left, d));
  }

  lemma ExpireKeepsInv(s: State, left: Store, rounds: seq<(int, int)>)
    requires Inv(s, rounds) && Enabled(s, Expire(left))
    ensures Inv(s.(store := left), rounds)
  {
    forall i | 0 <= i < |rounds| ensures SessionOk(s.sessions[i], left, rounds[i]) {
      forall d | Exchange(s.sessions[i].Key(), d) ensures List(left, d) == List(s.store, d) || List(left, d) == [] {
        ThinnedOne(s.sessions[i], s.store, left, rounds[i], d);
      }
      ElsewhereKeeps(s.sessions[i], s.store, left, rounds[i]);
    }
  }

  lemma RefusedKeepsInv(s: State, j: nat, role: Role, rounds: seq<(int, int)>)
    requires Inv(s, rounds) && Enabled(s, Refused(j, role))
    ensures Inv(Next(s, Refused(j, role)), rounds)
  {
    RefusedKeeps(s.sessions[j], s.store, role, rounds[j]);
  }

  lemma AbortKeepsInv(s: State, j: nat, role: Role, rounds: seq<(int, int)>)
    requires Inv(s, rounds) && Enabled(s, Abort(j, role))
    ensures Inv(Next(s, Abort(j, role)), rounds)
  {
    AbortKeeps(s.sessions[j], s.store, role, rounds[j]);
  }

  /** Every step of every interleaving, expiry, other clients' calls, refused Removes and
      failures included, keeps the invariant of all sessions at once. */
  lemma StepKeepsInv(s: State, step: Step, rounds: seq<(int, int)>)
    requires Inv(s, rounds) && Enabled(s, step)
    ensures Inv(Next(s, step), rounds)
  {
    match step
    case Act(j, role, nonce, time) => ActStepKeepsInv(s, j, role, nonce, time, rounds);
    case Refused(j, role) => RefusedKeepsInv(s, j, role, rounds);
    case Abort(j, role) => AbortKeepsInv(s, j, role, rounds);
    case Expire(left) => ExpireKeepsInv(s, left, rounds);
    case ForeignAdd(d, v) => StoreStepKeepsInv(s, Put(s.store, d, v), rounds);
    case ForeignRemove(d, v) => StoreStepKeepsInv(s, Drop(s.store, d, v), rounds);
  }

  lemma AbortKeeps(x: Session, store: Store, role: Role, rounds: (int, int))
    requires SessionOk(x, store, rounds)
    ensures SessionOk(x.With(x.Member(role).(phase := Failed)), store, rounds)
    ensures x.With(x.Member(role).(phase := Failed)).Key() == x.Key()
  {
  }

  // ----- Runs -----

  /** Matched pairs, each with the numbers of rounds the two were started with. */
  datatype Pair = Pair(initiator: Identity, contributor: Identity, rounds: (int, int)) {
    function Begin(): Session {
      Session(Start(Initiator, Box(initiator, contributor), rounds.0),
              Start(Contributor, Box(contributor, initiator), rounds.1), [])
    }
  }

  /** A state in which all pairs start: their keys are distinct, and nobody has used the
      directories named by them. */
  ghost predicate Initial(s: State, pairs: seq<Pair>) {
    && |s.sessions| == |pairs|
    && (forall i | 0 <= i < |pairs| :: s.sessions[i] == pairs[i].Begin())
    && (forall i, j | 0 <= i < j < |pairs| :: s.sessions[i].Key() != s.sessions[j].Key())
    && (forall i, d | 0 <= i < |pairs| && Exchange(s.sessions[i].Key(), d) :: List(s.store, d) == [])
  }

  function RoundsOf(pairs: seq<Pair>): seq<(int, int)> {
    seq(|pairs|, i requires 0 <= i < |pairs| => pairs[i].rounds)
  }

  ghost predicate IsRun(states: seq<State>, steps: seq<Step>) {
    && |states| == |steps| + 1
    && forall k | 0 <= k < |steps| :: Enabled(states[k], steps[k]) && states[k + 1] == Next(states[k], steps[k])
  }

  lemma InitialInv(s: State, pairs: seq<Pair>)
    requires Initial(s, pairs)
    ensures Inv(s, RoundsOf(pairs))
  {
    forall i | 0 <= i < |pairs| ensures SessionOk(s.sessions[i], s.store, pairs[i].rounds) {
      assert {pairs[i].contributor, pairs[i].initiator} == {pairs[i].initiator, pairs[i].contributor};
    }
  }

  lemma {:induction false} RunInv(states: seq<State>, steps: seq<Step>, pairs: seq<Pair>, k: nat)
    requires IsRun(states, steps) && Initial(states[0], pairs) && k <= |steps|
    ensures Inv(states[k], RoundsOf(pairs))
  {
    if k == 0 {
      InitialInv(states[0], pairs);
    } else {
      RunInv(states, steps, pairs, k - 1);
      StepKeepsInv(states[k - 1], steps[k - 1], RoundsOf(pairs));
    }
  }

  // ----- What the parties can rely on -----

  /** All messages the role has sent, in order. */
  function Sent(log: seq<Term>, role: Role): seq<Message> {
    Inbox(log, Peer(role), |log|)
  }

  lemma {:induction false} InboxGrows(log: seq<Term>, role: Role, m: nat, n: nat)
    requires m <= n <= |log|
    ensures Inbox(log, role, m) <= Inbox(log, role, n)
  {
    if m < n {
      InboxGrows(log, role, m, n - 1);
    }
  }

  /** A party that polls waits where the other, if about to send, will write; if the other
      still has to take a message, it will come to write there. */
  predicate Meets(waiting: Party, other: Party) {
    && (waiting.phase.Polling? && other.phase.Sending? ==> other.directory == waiting.directory)
    && (waiting.phase.Polling? && other.phase.Taking? ==> Take(other).directory == waiting.directory)
  }

  lemma SessionMeets(x: Session, store: Store, rounds: (int, int))
    requires SessionOk(x, store, rounds)
    ensures Meets(x.initiator, x.contributor) && Meets(x.contributor, x.initiator)
  {
    if x.log != [] {
      assert IsPayload(x.log[|x.log| - 1], x.Key(), |x.log| - 1);
    }
  }

  /** In every state of every run, for every pair: both ends are on one chain of
      directories, at most one link and one round apart; who waits does so where the other
      writes next; no directory of the pair ever holds two entries; and what each has
      decrypted is a prefix of what the other has sent. */
  lemma EveryReachableSession(states: seq<State>, steps: seq<Step>, pairs: seq<Pair>, k: nat, i: nat)
    requires IsRun(states, steps) && Initial(states[0], pairs) && k <= |steps| && i < |pairs|
    ensures |states[k].sessions| == |pairs|
    ensures var x := states[k].sessions[i];
      && x.Key() == pairs[i].Begin().Key()
      && x.initiator.position <= |x.log| && x.initiator.directory == Link(x.Key(), x.log, x.initiator.position)
      && x.contributor.position <= |x.log| && x.contributor.directory == Link(x.Key(), x.log, x.contributor.position)
      && -1 <= x.initiator.position - x.contributor.position <= 1
      && -1 <= x.initiator.counter - x.contributor.counter <= 1
      && Meets(x.initiator, x.contributor) && Meets(x.contributor, x.initiator)
      && (forall d | Exchange(x.Key(), d) :: |List(states[k].store, d)| <= 1)
      && x.initiator.received <= Sent(x.log, Contributor)
      && x.contributor.received <= Sent(x.log, Initiator)
  {
    RunInv(states, steps, pairs, k);
    KeysStay(states, steps, pairs, k, i);
    var x := states[k].sessions[i];
    SessionMeets(x, states[k].store, pairs[i].rounds);
    InboxGrows(x.log, Initiator, x.initiator.position, |x.log|);
    InboxGrows(x.log, Contributor, x.contributor.position, |x.log|);
  }

  lemma {:induction false} KeysStay(states: seq<State>, steps: seq<Step>, pairs: seq<Pair>, k: nat, i: nat)
    requires IsRun(states, steps) && Initial(states[0], pairs) && k <= |steps| && i < |pairs|
    ensures |states[k].sessions| == |pairs| && states[k].sessions[i].Key() == pairs[i].Begin().Key()
  {
    hide Inv, Next, Enabled;
    if k != 0 {
      KeysStay(states, steps, pairs, k - 1, i);
      RunInv(states, steps, pairs, k - 1);
      StepKeepsKey(states[k - 1], steps[k - 1], RoundsOf(pairs), i);
    }
  }

  lemma StepKeepsKey(s: State, step: Step, rounds: seq<(int, int)>, i: nat)
    requires Inv(s, rounds) && Enabled(s, step) && i < |rounds|
    ensures |Next(s, step).sessions| == |rounds| && Next(s, step).sessions[i].Key() == s.sessions[i].Key()
  {
    if step.Act? {
      ActKeepsKey(s.sessions[step.session], s.store, step.role, step.nonce, step.time, rounds[step.session]);
    } else if step.Refused? {
      RefusedKeeps(s.sessions[step.session], s.store, step.role, rounds[step.session]);
    } else if step.Abort? {
      AbortKeeps(s.sessions[step.session], s.store, step.role, rounds[step.session]);
    }
  }

  /** When both have finished without a timeout or a failed call, they were started with
      the same number of rounds and have exchanged exactly that many messages each way
      without loss. */
  lemma FinishedTogether(x: Session, store: Store, rounds: (int, int))
    requires SessionOk(x, store, rounds) && x.initiator.phase.Done? && x.contributor.phase.Done?
    ensures |x.log| == 2 * AtLeastZero(rounds.0) == 2 * AtLeastZero(rounds.1) && AllTaken(x)
    ensures x.initiator.received == Sent(x.log, Contributor) && x.contributor.received == Sent(x.log, Initiator)
    ensures |x.initiator.received| == |x.contributor.received| == AtLeastZero(rounds.0)
  {
    assert x.initiator.position == x.contributor.position == |x.log|;
    InboxLength(x.Key(), x.log, Initiator, |x.log|);
    InboxLength(x.Key(), x.log, Contributor, |x.log|);
  }

  function AtLeastZero(n: int): nat {
    if n < 0 then 0 else n
  }

  lemma {:induction false} InboxLength(key: Term, log: seq<Term>, role: Role, n: nat)
    requires LogOk(key, log) && n <= |log|
    ensures |Inbox(log, role, n)| == if role.Initiator? then n / 2 else (n + 1) / 2
  {
    if n != 0 {
      InboxLength(key, log, role, n - 1);
      assert IsPayload(log[n - 1], key, n - 1);
    }
  }

  // ----- Every run ends -----

  /** Bounds the calls a party can still make: two and its polls in each round left. */
  function Budget(p: Party): int {
    var before := 14 * p.iterations;
    match p.phase
    case Sending => before - if p.role.Initiator? then 0 else 12
    case Polling(polls) => before - polls - if p.role.Initiator? then 1 else 0
    case Taking => before - if p.role.Initiator? then 12 else 11
    case Done => 0
    case TimedOut => 0
    case Failed => 0
  }

  lemma CallSpends(p: Party, key: Term, log: seq<Term>, rounds: int, answer: seq<Term>, nonce: int, time: string)
    requires LogOk(key, log) && PartyOk(p, p.role, key, log, rounds)
    ensures p.phase.Sending? ==> 0 <= Budget(Send(p, nonce, time)) < Budget(p)
    ensures p.phase.Polling? ==> 0 <= Budget(Poll(p, answer)) < Budget(p)
    ensures p.phase.Taking? ==> 0 <= Budget(Take(p)) < Budget(p) && !Take(p).phase.Failed?
  {
    if p.phase.Taking? {
      assert IsPayload(log[p.position], key, p.position);
    }
  }

  lemma BudgetFalls(x: Session, store: Store, role: Role, nonce: int, time: string, rounds: (int, int))
    requires SessionOk(x, store, rounds) && x.Member(role).Running()
    ensures var x' := ActOn(store, x, role, nonce, time).1;
      && 0 <= Budget(x'.Member(role)) < Budget(x.Member(role)) && !x'.Member(role).phase.Failed?
      && x'.Member(Peer(role)) == x.Member(Peer(role))
  {
    var p := x.Member(role);
    CallSpends(p, x.Key(), x.log, Rounds(rounds, role), List(store, p.directory), nonce, time);
  }

  lemma BudgetNotNegative(x: Session, store: Store, rounds: (int, int))
    requires SessionOk(x, store, rounds)
    ensures 0 <= Budget(x.initiator) && 0 <= Budget(x.contributor)
  {
  }

  function TotalBudget(sessions: seq<Session>): int {
    if sessions == [] then 0
    else Budget(sessions[0].initiator) + Budget(sessions[0].contributor) + TotalBudget(sessions[1..])
  }

  lemma {:induction false} TotalAfterUpdate(sessions: seq<Session>, i: nat, x: Session)
    requires i < |sessions|
    ensures TotalBudget(sessions[i := x]) - TotalBudget(sessions)
            == Budget(x.initiator) + Budget(x.contributor)
               - Budget(sessions[i].initiator) - Budget(sessions[i].contributor)
  {
    if i == 0 {
      assert sessions[i := x][1..] == sessions[1..];
    } else {
      assert sessions[i := x][1..] == sessions[1..][i - 1 := x];
      TotalAfterUpdate(sessions[1..], i - 1, x);
    }
  }

  lemma {:induction false} TotalNotNegative(s: State, rounds: seq<(int, int)>, i: nat)
    requires Inv(s, rounds) && i <= |rounds|
    ensures 0 <= TotalBudget(s.sessions[i..])
    decreases |rounds| - i
  {
    if i < |rounds| {
      BudgetNotNegative(s.sessions[i], s.store, rounds[i]);
      TotalNotNegative(s, rounds, i + 1);
    }
  }

  predicate IsCall(step: Step) {
    step.Act? || step.Refused? || step.Abort?
  }

  lemma StepSpends(s: State, step: Step, rounds: seq<(int, int)>)
    requires Inv(s, rounds) && Enabled(s, step)
    ensures TotalBudget(Next(s, step).sessions) <= TotalBudget(s.sessions) - if IsCall(step) then 1 else 0
  {
    hide SessionOk;
    if step.Act? {
      var x := s.sessions[step.session];
      BudgetFalls(x, s.store, step.role, step.nonce, step.time, rounds[step.session]);
      TotalAfterUpdate(s.sessions, step.session, ActOn(s.store, x, step.role, step.nonce, step.time).1);
    } else if step.Refused? {
      var x := s.sessions[step.session];
      BudgetFalls(x, s.store, step.role, 0, "", rounds[step.session]);
      TotalAfterUpdate(s.sessions, step.session, RefusedOn(x, step.role));
    } else if step.Abort? {
      var x := s.sessions[step.session];
      BudgetFalls(x, s.store, step.role, 0, "", rounds[step.session]);
      TotalAfterUpdate(s.sessions, step.session, x.With(x.Member(step.role).(phase := Failed)));
    }
  }

  /** The number of calls the parties make in the first `k` steps. */
  function Calls(steps: seq<Step>, k: nat): nat
    requires k <= |steps|
  {
    if k == 0 then 0 else Calls(steps, k - 1) + if IsCall(steps[k - 1]) then 1 else 0
  }

  lemma RunSpends(states: seq<State>, steps: seq<Step>, pairs: seq<Pair>, k: nat)
    requires IsRun(states, steps) && Initial(states[0], pairs) && k < |steps|
    ensures TotalBudget(states[k + 1].sessions) <= TotalBudget(states[k].sessions) - if IsCall(steps[k]) then 1 else 0
  {
    RunInv(states, steps, pairs, k);
    StepSpends(states[k], steps[k], RoundsOf(pairs));
  }

  lemma {:induction false} CallsAreSpent(states: seq<State>, steps: seq<Step>, pairs: seq<Pair>, k: nat)
    requires IsRun(states, steps) && Initial(states[0], pairs) && k <= |steps|
    ensures Calls(steps, k) + TotalBudget(states[k].sessions) <= TotalBudget(states[0].sessions)
  {
    if k != 0 {
      CallsAreSpent(states, steps, pairs, k - 1);
      RunSpends(states, steps, pairs, k - 1);
    }
  }

  /** However the parties are interleaved and whatever the store does, all of them together
      make no more calls than the budget they start with.  (A running party can always make
      its next call: nobody waits for anything but an answer from the store.) */
  lemma CallsAreBounded(states: seq<State>, steps: seq<Step>, pairs: seq<Pair>, k: nat)
    requires IsRun(states, steps) && Initial(states[0], pairs) && k <= |steps|
    ensures Calls(steps, k) <= TotalBudget(states[0].sessions)
  {
    RunInv(states, steps, pairs, k);
    TotalNotNegative(states[k], RoundsOf(pairs), 0);
    assert states[k].sessions[0..] == states[k].sessions;
    CallsAreSpent(states, steps, pairs, k);
  }

  /** No call of the party in session `i` fails. */
  predicate NoAbort(steps: seq<Step>, i: nat, role: Role) {
    forall step | step in steps :: !(step.Abort? && step.session == i && step.role == role)
  }

  lemma StepFailsNobody(s: State, step: Step, rounds: seq<(int, int)>, i: nat, role: Role)
    requires Inv(s, rounds) && Enabled(s, step) && NoAbort([step], i, role)
    requires i < |rounds| && i < |s.sessions| && !s.sessions[i].Member(role).phase.Failed?
    ensures i < |Next(s, step).sessions| && !Next(s, step).sessions[i].Member(role).phase.Failed?
  {
    assert step in [step];
    if step.Act? {
      BudgetFalls(s.sessions[step.session], s.store, step.role, step.nonce, step.time, rounds[step.session]);
    } else if step.Refused? {
      BudgetFalls(s.sessions[step.session], s.store, step.role, 0, "", rounds[step.session]);
    }
  }

  /** Whatever is taken can be decrypted: a party fails only by a failed call of its own,
      whatever happens to all others. */
  lemma {:induction false} OnlyFailedCallsFail(
      states: seq<State>, steps: seq<Step>, pairs: seq<Pair>, k: nat, i: nat, role: Role)
    requires IsRun(states, steps) && Initial(states[0], pairs) && k <= |steps| && i < |pairs|
    requires NoAbort(steps, i, role)
    ensures i < |states[k].sessions| && !states[k].sessions[i].Member(role).phase.Failed?
  {
    hide Inv, Next, Enabled;
    if k != 0 {
      OnlyFailedCallsFail(states, steps, pairs, k - 1, i, role);
      RunInv(states, steps, pairs, k - 1);
      StepFailsNobody(states[k - 1], steps[k - 1], RoundsOf(pairs), i, role);
    }
  }

  // ----- Nothing is left behind -----

  /** The only entry in any of the key's directories is the last payload, and that only
      until it has been taken. */
  ghost predicate Tidy(x: Session, store: Store) {
    forall d | Exchange(x.Key(), d) && List(store, d) != [] ::
      !AllTaken(x) && x.log != [] && d == Link(x.Key(), x.log, |x.log| - 1)
  }

  lemma ActKeepsTidy(x: Session, store: Store, role: Role, nonce: int, time: string, rounds: (int, int))
    requires SessionOk(x, store, rounds) && x.Member(role).Running() && Tidy(x, store)
    ensures Tidy(ActOn(store, x, role, nonce, time).1, ActOn(store, x, role, nonce, time).0)
  {
    hide Tidy, SessionOk, SendOn, PollOn, TakeOn;
    match x.Member(role).phase
    case Sending => SendKeepsTidy(x, store, role, nonce, time, rounds);
    case Polling(_) => PollKeepsTidy(x, store, role, rounds);
    case Taking => TakeKeepsTidy(x, store, role, rounds);
  }

  lemma PollKeepsTidy(x: Session, store: Store, role: Role, rounds: (int, int))
    requires SessionOk(x, store, rounds) && x.Member(role).phase.Polling? && Tidy(x, store)
    ensures Tidy(PollOn(store, x, role), store)
  {
    hide Tidy, SessionOk;
    var x' := PollOn(store, x, role);
    PolledSame(x, store, role, rounds);
    NoMoreKeepsTidy(x, x', store, store);
  }

  lemma PolledSame(x: Session, store: Store, role: Role, rounds: (int, int))
    requires SessionOk(x, store, rounds) && x.Member(role).phase.Polling?
    ensures var x' := PollOn(store, x, role); x'.Key() == x.Key() && x'.log == x.log && AllTaken(x') == AllTaken(x)
  {
    var p := x.Member(role);
    var p' := Poll(p, List(store, p.directory));
    assert p'.box == p.box && p'.position == p.position && p'.role == p.role == role;
  }

  lemma NoMoreKeepsTidy(x: Session, x': Session, store: Store, store': Store)
    requires Tidy(x, store) && x'.Key() == x.Key() && x'.log == x.log && AllTaken(x') == AllTaken(x)
    requires forall d | Exchange(x.Key(), d) && List(store', d) != [] :: List(store, d) != []
    ensures Tidy(x', store')
  {
  }

  lemma SendKeepsTidy(x: Session, store: Store, role: Role, nonce: int, time: string, rounds: (int, int))
    requires SessionOk(x, store, rounds) && x.Member(role).phase.Sending? && Tidy(x, store)
    ensures Tidy(SendOn(store, x, role, nonce, time).1, SendOn(store, x, role, nonce, time).0)
  {
    var x' := SendOn(store, x, role, nonce, time).1;
    assert AllTaken(x) && x'.Key() == x.Key() && |x'.log| == |x.log| + 1;
    assert Link(x'.Key(), x'.log, |x.log|) == Link(x.Key(), x.log, |x.log|);
  }

  lemma TakenIsGone(x: Session, store: Store, role: Role, rounds: (int, int))
    requires SessionOk(x, store, rounds) && x.Member(role).phase.Taking?
    ensures x.log != [] && x.Member(role).directory == Link(x.Key(), x.log, |x.log| - 1)
    ensures List(TakeOn(store, x, role).0, x.Member(role).directory) == []
  {
    var p := x.Member(role);
    HeldAt(x.Key(), x.log, store, p.position);
    var values := List(store, p.directory);
    if values != [] {
      assert values == [p.payload] && values[1..] == [] && Less(values[1..], p.payload) == [];
    }
  }

  lemma TakeKeepsTidy(x: Session, store: Store, role: Role, rounds: (int, int))
    requires SessionOk(x, store, rounds) && x.Member(role).phase.Taking? && Tidy(x, store)
    ensures Tidy(TakeOn(store, x, role).1, TakeOn(store, x, role).0)
  {
    RefusedKeeps(x, store, role, rounds);
    TakenIsGone(x, store, role, rounds);
    forall d | Exchange(x.Key(), d) ensures List(TakeOn(store, x, role).0, d) == [] {
      if d != x.Member(role).directory {
        assert List(TakeOn(store, x, role).0, d) == List(store, d);
      }
    }
  }

  /** What a step that is not of session `i` does to its directories. */
  lemma StepElsewhere(s: State, step: Step, rounds: seq<(int, int)>, i: nat, d: Term)
    requires Inv(s, rounds) && Enabled(s, step) && i < |rounds| && Exchange(s.sessions[i].Key(), d)
    requires (step.Act? || step.Refused?) ==> step.session != i
    ensures List(Next(s, step).store, d) == List(s.store, d) || (step.Expire? && List(Next(s, step).store, d) == [])
  {
    match step
    case Act(j, role, nonce, time) =>
      if Exchange(s.sessions[j].Key(), d) {
        KeysApart(s.sessions[i].Key(), s.sessions[j].Key(), d);
        assert false;
      } else {
        ActElsewhere(s.sessions[j], s.store, role, nonce, time, rounds[j], d);
      }
    case Expire(left) => ThinnedOne(s.sessions[i], s.store, left, rounds[i], d);
    case _ =>
  }

  lemma StepKeepsTidy(s: State, step: Step, rounds: seq<(int, int)>, i: nat)
    requires Inv(s, rounds) && Enabled(s, step) && i < |rounds| && Tidy(s.sessions[i], s.store)
    requires !(step.Refused? && step.session == i)
    ensures |Next(s, step).sessions| == |rounds| && Tidy(Next(s, step).sessions[i], Next(s, step).store)
  {
    hide Tidy, SessionOk, ActOn;
    var x := s.sessions[i];
    StepKeepsKey(s, step, rounds, i);
    if step.Act? && step.session == i {
      ActTidies(s, step, rounds, i);
    } else {
      var x', store' := Next(s, step).sessions[i], Next(s, step).store;
      forall d | Exchange(x.Key(), d) && List(store', d) != [] ensures List(s.store, d) != [] {
        StepElsewhere(s, step, rounds, i, d);
      }
      StaysTaken(s, step, rounds, i);
      NoMoreKeepsTidy(x, x', s.store, store');
    }
  }

  lemma ActTidies(s: State, step: Step, rounds: seq<(int, int)>, i: nat)
    requires Inv(s, rounds) && Enabled(s, step) && i < |rounds| && Tidy(s.sessions[i], s.store)
    requires step.Act? && step.session == i
    ensures Tidy(Next(s, step).sessions[i], Next(s, step).store)
  {
    hide Tidy, SessionOk, ActOn;
    ActKeepsTidy(s.sessions[i], s.store, step.role, step.nonce, step.time, rounds[i]);
  }

  lemma StaysTaken(s: State, step: Step, rounds: seq<(int, int)>, i: nat)
    requires Inv(s, rounds) && Enabled(s, step) && i < |rounds|
    requires (step.Act? || step.Refused?) ==> step.session != i
    ensures var x, x' := s.sessions[i], Next(s, step).sessions[i]; x'.log == x.log && AllTaken(x') == AllTaken(x)
  {
    hide ActOn;
    if step.Abort? && step.session == i {
      assert s.sessions[i].With(s.sessions[i].Member(step.role).(phase := Failed)).log == s.sessions[i].log;
      AbortKeeps(s.sessions[i], s.store, step.role, rounds[i]);
    }
  }

  predicate NeverRefused(steps: seq<Step>, i: nat) {
    forall step | step in steps :: !(step.Refused? && step.session == i)
  }

  lemma InitialTidy(s: State, pairs: seq<Pair>, i: nat)
    requires Initial(s, pairs) && i < |pairs|
    ensures |s.sessions| == |pairs| && Tidy(s.sessions[i], s.store)
  {
  }

  lemma {:induction false} RunTidy(states: seq<State>, steps: seq<Step>, pairs: seq<Pair>, k: nat, i: nat)
    requires IsRun(states, steps) && Initial(states[0], pairs) && k <= |steps| && i < |pairs|
    requires NeverRefused(steps, i)
    ensures |states[k].sessions| == |pairs| && Tidy(states[k].sessions[i], states[k].store)
  {
    hide Tidy, Inv, Next, Enabled;
    if k == 0 {
      InitialTidy(states[0], pairs, i);
    } else {
      RunTidy(states, steps, pairs, k - 1, i);
      RunInv(states, steps, pairs, k - 1);
      StepKeepsTidy(states[k - 1], steps[k - 1], RoundsOf(pairs), i);
    }
  }

  /** A pair that has stopped, without either having timed out or failed, has had all its
      rounds, whatever happened to all others: everything sent was received in order, and,
      unless a Remove of theirs was refused, nothing of it is left in any directory. */
  lemma StoppedWithoutTimeout(states: seq<State>, steps: seq<Step>, pairs: seq<Pair>, k: nat, i: nat)
    requires IsRun(states, steps) && Initial(states[0], pairs) && k <= |steps| && i < |pairs|
    requires |states[k].sessions| == |pairs|
    requires forall role :: states[k].sessions[i].Member(role).phase.Done?
    ensures var (x, n) := (states[k].sessions[i], AtLeastZero(pairs[i].rounds.0));
      && n == AtLeastZero(pairs[i].rounds.1) && |x.log| == 2 * n
      && x.initiator.received == Sent(x.log, Contributor) && x.contributor.received == Sent(x.log, Initiator)
      && |x.initiator.received| == |x.contributor.received| == n
      && (NeverRefused(steps, i) ==> forall d | Exchange(x.Key(), d) :: List(states[k].store, d) == [])
  {
    var x := states[k].sessions[i];
    RunInv(states, steps, pairs, k);
    assert x.Member(Initiator).phase.Done? && x.Member(Contributor).phase.Done?;
    FinishedTogether(x, states[k].store, pairs[i].rounds);
    if NeverRefused(steps, i) {
      RunTidy(states, steps, pairs, k, i);
    }
  }
}
