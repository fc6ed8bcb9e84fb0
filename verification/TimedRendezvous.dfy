/** The rendezvous over the directory itself, with its clocks and deadlines.  Directories and
    payloads go by name.  Each operation on the timed directory is one on the store of the
    rendezvous, between two moments at which entries expire; so what holds of every rendezvous
    holds here, and payloads that are taken in time never expire. */
module TimedRendezvous {
  import T = TimedStore
  import L = Lifetimes
  import opened Wrappers
  import opened Rendezvous
  import opened Progress

  // ----- Names -----

  /** How directories and payloads are written. */
  type Naming = Term -> string

  ghost predicate Injective(name: Naming) {
    (forall t :: name(t) != "") && forall t, u :: name(t) == name(u) ==> t == u
  }

  function Names(name: Naming, terms: seq<Term>): (names: seq<string>)
    ensures |names| == |terms|
    ensures forall i | 0 <= i < |terms| :: names[i] == name(terms[i])
  {
    seq(|terms|, i requires 0 <= i < |terms| => name(terms[i]))
  }

  lemma SameNames(name: Naming, a: seq<Term>, b: seq<Term>)
    requires Injective(name) && Names(name, a) == Names(name, b)
    ensures a == b
  {
    assert |a| == |b|;
    forall i | 0 <= i < |a| ensures a[i] == b[i] {
      assert Names(name, a)[i] == Names(name, b)[i];
    }
  }

  lemma NamedMember(name: Naming, terms: seq<Term>, v: Term)
    requires Injective(name)
    ensures name(v) in Names(name, terms) <==> v in terms
  {
    if v in terms {
      var i :| 0 <= i < |terms| && terms[i] == v;
      assert Names(name, terms)[i] == name(v);
    }
  }

  function Held(s: T.Store, key: string): seq<string> {
    T.Values(T.Lookup(s, key).entries)
  }

  /** What the directory holds under any name is what the store of the rendezvous holds. */
  ghost predicate Shows(name: Naming, s: T.Store, r: Store) {
    forall d :: Held(s, name(d)) == Names(name, List(r, d))
  }

  ghost predicate AllThinned(r: Store, left: Store) {
    forall d :: Thinned(List(r, d), List(left, d))
  }

  lemma {:induction false} ThinnedSelf(values: seq<Term>)
    ensures Thinned(values, values)
  {
    if values != [] {
      ThinnedSelf(values[..|values| - 1]);
    }
  }

  lemma {:induction false} ThinnedNone(values: seq<Term>)
    ensures Thinned(values, [])
  {
    if values != [] {
      ThinnedNone(values[..|values| - 1]);
    }
  }

  // ----- One operation -----

  /** What the cache forgets expires. */
  lemma CollectExpires(name: Naming, s: T.Store, r: Store, clock: int) returns (left: Store)
    requires Injective(name) && Shows(name, s, r)
    ensures Shows(name, T.Collect(s, clock), left) && AllThinned(r, left)
  {
    var found := T.Collect(s, clock);
    left := map d | d in r && name(d) in found :: r[d];
    forall d ensures Held(found, name(d)) == Names(name, List(left, d)) && Thinned(List(r, d), List(left, d)) {
      assert Held(s, name(d)) == Names(name, List(r, d));
      ThinnedSelf(List(r, d));
      ThinnedNone(List(r, d));
      if d !in left {
        assert Held(found, name(d)) == [];
      }
    }
  }

  /** The terms whose entries a purge leaves. */
  function Survivors(entries: seq<T.Entry>, terms: seq<Term>, limit: int): seq<Term>
    requires |entries| == |terms|
  {
    if entries == [] then []
    else
      var n := |entries| - 1;
      var left := Survivors(entries[..n], terms[..n], limit);
      if entries[n].expireOn < limit then left else left + [terms[n]]
  }

  lemma {:induction false} SurvivorsLeft(name: Naming, entries: seq<T.Entry>, terms: seq<Term>, limit: int)
    requires T.Values(entries) == Names(name, terms)
    ensures |entries| == |terms|
    ensures T.Values(T.Unexpired(entries, limit)) == Names(name, Survivors(entries, terms, limit))
    ensures Thinned(terms, Survivors(entries, terms, limit))
  {
    if entries != [] {
      var n := |entries| - 1;
      assert T.Values(entries[..n]) == T.Values(entries)[..n] == Names(name, terms)[..n] == Names(name, terms[..n]);
      SurvivorsLeft(name, entries[..n], terms[..n], limit);
      var left := Survivors(entries[..n], terms[..n], limit);
      assert T.Values(entries)[n] == Names(name, terms)[n];
      assert (left + [terms[n]])[..|left|] == left;
      assert Names(name, left + [terms[n]]) == Names(name, left) + [name(terms[n])];
    }
  }

  lemma Fronts(name: Naming, entries: seq<T.Entry>, terms: seq<Term>)
    requires T.Values(entries) == Names(name, terms)
    ensures |entries| == |terms|
    ensures entries != [] ==> entries[0].value == name(terms[0]) && T.Values(entries[1..]) == Names(name, terms[1..])
  {
    assert |T.Values(entries)| == |Names(name, terms)|;
    if entries != [] {
      assert T.Values(entries)[0] == Names(name, terms)[0];
      assert T.Values(entries[1..]) == T.Values(entries)[1..] == Names(name, terms)[1..] == Names(name, terms[1..]);
    }
  }

  lemma Prepend(name: Naming, entry: T.Entry, entries: seq<T.Entry>, term: Term, terms: seq<Term>)
    requires entry.value == name(term) && T.Values(entries) == Names(name, terms)
    ensures T.Values([entry] + entries) == Names(name, [term] + terms)
  {
    assert T.Values([entry] + entries) == [entry.value] + T.Values(entries);
    assert Names(name, [term] + terms) == [name(term)] + Names(name, terms);
  }

  lemma WithoutLater(entries: seq<T.Entry>, value: string)
    requires entries != [] && entries[0].value != value
    ensures T.Find(entries, value) == 1 + T.Find(entries[1..], value)
    ensures T.Find(entries, value) < |entries| ==>
              T.Without(entries, T.Find(entries, value))
              == [entries[0]] + T.Without(entries[1..], T.Find(entries[1..], value))
  {
  }

  lemma {:induction false} LessIsWithout(name: Naming, entries: seq<T.Entry>, terms: seq<Term>, v: Term)
    requires Injective(name) && T.Values(entries) == Names(name, terms)
    ensures var at := T.Find(entries, name(v));
      if at < |entries| then T.Values(T.Without(entries, at)) == Names(name, Less(terms, v))
      else Less(terms, v) == terms
  {
    hide T.Values, Names, T.Without;
    Fronts(name, entries, terms);
    if entries != [] {
      if terms[0] == v {
        WithoutFirst(entries);
      } else {
        LessIsWithout(name, entries[1..], terms[1..], v);
        WithoutLater(entries, name(v));
        var at := T.Find(entries[1..], name(v));
        if at < |entries[1..]| {
          Prepend(name, entries[0], T.Without(entries[1..], at), terms[0], Less(terms[1..], v));
        }
      }
    }
  }

  lemma WithoutFirst(entries: seq<T.Entry>)
    requires entries != []
    ensures T.Without(entries, 0) == entries[1..]
  {
  }

  /** What a List, Add or Remove, before it purges, does to the terms of its directory. */
  function EditedTerms(terms: seq<Term>, e: T.Event, v: Term): seq<Term> {
    match e
    case EList(_, _) => terms
    case EAdd(_, _, _, _) => if v in terms then terms else terms + [v]
    case ERemove(_, _, _) => Less(terms, v)
    case Evict(_) => terms
  }

  /** An operation under the name of `d`, on the value named by `v`. */
  predicate On(name: Naming, e: T.Event, d: Term, v: Term) {
    L.Accepted(e) && e.key == name(d) && (e.EList? || e.value == name(v))
  }

  lemma EditedShows(name: Naming, entries: seq<T.Entry>, terms: seq<Term>, e: T.Event, d: Term, v: Term)
    requires Injective(name) && On(name, e, d, v) && T.Values(entries) == Names(name, terms)
    ensures T.Values(L.Edited(entries, e)) == Names(name, EditedTerms(terms, e, v))
  {
    match e
    case EList(_, _) =>
    case EAdd(_, value, ttl, clock) =>
      L.PutValues(entries, value, T.Truncated(clock) + ttl);
      NamedMember(name, terms, v);
      assert Names(name, terms + [v]) == Names(name, terms) + [name(v)];
    case ERemove(_, _, _) =>
      LessIsWithout(name, entries, terms, v);
  }

  /** The store of the rendezvous with the terms of one directory replaced. */
  function Edit(r: Store, d: Term, terms: seq<Term>): Store {
    r[d := terms]
  }

  /** What the operation leaves of the terms of its directory. */
  function LeftBy(s: T.Store, terms: seq<Term>, e: T.Event, v: Term): seq<Term>
    requires L.Accepted(e)
    requires |L.Edited(T.Lookup(T.Collect(s, e.clock), e.key).entries, e)| == |EditedTerms(terms, e, v)|
  {
    var edited := L.Edited(T.Lookup(T.Collect(s, e.clock), e.key).entries, e);
    Survivors(edited, EditedTerms(terms, e, v), T.Truncated(e.clock))
  }

  lemma LeftShows(name: Naming, s: T.Store, e: T.Event, terms: seq<Term>, d: Term, v: Term)
    requires Injective(name) && On(name, e, d, v) && Held(T.Collect(s, e.clock), name(d)) == Names(name, terms)
    ensures |L.Edited(T.Lookup(T.Collect(s, e.clock), e.key).entries, e)| == |EditedTerms(terms, e, v)|
    ensures Held(T.Apply(s, e).0, name(d)) == Names(name, LeftBy(s, terms, e, v))
    ensures Thinned(EditedTerms(terms, e, v), LeftBy(s, terms, e, v))
  {
    hide T.Values, Names, Survivors, Thinned, EditedTerms, L.Edited, T.Apply, T.Collect;
    var entries := T.Lookup(T.Collect(s, e.clock), e.key).entries;
    EditedShows(name, entries, terms, e, d, v);
    SurvivorsLeft(name, L.Edited(entries, e), EditedTerms(terms, e, v), T.Truncated(e.clock));
    L.ApplyEntries(s, e);
  }

  /** The directory does to what it finds what the rendezvous does to its store, and then
      some of it expires. */
  lemma OperationShows(name: Naming, s: T.Store, r: Store, e: T.Event, d: Term, v: Term) returns (left: Store)
    requires Injective(name) && On(name, e, d, v) && Shows(name, T.Collect(s, e.clock), r)
    ensures Shows(name, T.Apply(s, e).0, left) && AllThinned(Edit(r, d, EditedTerms(List(r, d), e, v)), left)
  {
    hide T.Values, Names, Survivors, Thinned, EditedTerms, L.Edited, T.Apply, T.Collect, LeftBy;
    assert Held(T.Collect(s, e.clock), name(d)) == Names(name, List(r, d));
    LeftShows(name, s, e, List(r, d), d, v);
    left := Edit(r, d, LeftBy(s, List(r, d), e, v));
    forall d'
      ensures Held(T.Apply(s, e).0, name(d')) == Names(name, List(left, d'))
      ensures Thinned(List(Edit(r, d, EditedTerms(List(r, d), e, v)), d'), List(left, d'))
    {
      if d' != d {
        HeldElsewhere(name, s, e, d, d');
        assert Held(T.Collect(s, e.clock), name(d')) == Names(name, List(r, d'));
        ThinnedSelf(List(r, d'));
      }
    }
  }

  lemma HeldElsewhere(name: Naming, s: T.Store, e: T.Event, d: Term, d': Term)
    requires Injective(name) && L.Accepted(e) && e.key == name(d) && d' != d
    ensures Held(T.Apply(s, e).0, name(d')) == Held(T.Collect(s, e.clock), name(d'))
  {
    assert !L.Touches(e, name(d'));
    L.ApplyElsewhere(s, e, name(d'));
  }

  // ----- Runs over the directory -----

  /** A call of a party or of another client, a List by another client, or the cache dropping
      lists on its own. */
  datatype TimedStep =
    | Call(step: Step, ttl: int, clock: int)
    | Look(directory: Term, clock: int)
    | Drops(keys: set<string>)

  datatype TimedState = TimedState(store: T.Store, sessions: seq<Session>)

  /** A request to the directory, with the terms that it names. */
  datatype Request = Request(event: T.Event, directory: Term, value: Term)

  /** What the request does to the store of the rendezvous, before anything expires. */
  function EditedBy(r: Store, asked: Request): Store {
    Edit(r, asked.directory, EditedTerms(List(r, asked.directory), asked.event, asked.value))
  }

  predicate InRange(step: Step, sessions: seq<Session>) {
    (step.Act? || step.Refused? || step.Abort?) ==> step.session < |sessions|
  }

  function PartyAsks(name: Naming, p: Party, nonce: int, time: string, ttl: int, clock: int): (asked: Option<Request>)
    ensures asked.Some? ==> !asked.value.event.Evict?
  {
    var d := p.directory;
    match p.phase
    case Sending =>
      var payload := Send(p, nonce, time).payload;
      Some(Request(T.EAdd(name(d), name(payload), ttl, clock), d, payload))
    case Polling(_) => Some(Request(T.EList(name(d), clock), d, d))
    case Taking => Some(Request(T.ERemove(name(d), name(p.payload), clock), d, p.payload))
    case _ => None
  }

  /** What a step asks of the directory; a call that is refused or fails changes nothing. */
  function Asked(name: Naming, sessions: seq<Session>, tstep: TimedStep): (asked: Option<Request>)
    requires tstep.Call? ==> InRange(tstep.step, sessions)
    ensures asked.Some? ==> !asked.value.event.Evict?
  {
    match tstep
    case Look(d, clock) => Some(Request(T.EList(name(d), clock), d, d))
    case Drops(_) => None
    case Call(step, ttl, clock) =>
      match step
      case Act(i, role, nonce, time) => PartyAsks(name, sessions[i].Member(role), nonce, time, ttl, clock)
      case ForeignAdd(d, v) => Some(Request(T.EAdd(name(d), name(v), ttl, clock), d, v))
      case ForeignRemove(d, v) => Some(Request(T.ERemove(name(d), name(v), clock), d, v))
      case _ => None
  }

  /** The directory as the step finds it. */
  function FoundBy(name: Naming, t: TimedState, tstep: TimedStep): T.Store
    requires tstep.Call? ==> InRange(tstep.step, t.sessions)
  {
    if tstep.Drops? then t.store - tstep.keys
    else
      var asked := Asked(name, t.sessions, tstep);
      if asked.Some? then T.Collect(t.store, asked.value.event.clock) else t.store
  }

  function StoreAfter(name: Naming, t: TimedState, tstep: TimedStep): T.Store
    requires tstep.Call? ==> InRange(tstep.step, t.sessions)
  {
    if tstep.Drops? then t.store - tstep.keys
    else
      var asked := Asked(name, t.sessions, tstep);
      if asked.Some? then T.Apply(t.store, asked.value.event).0 else t.store
  }

  /** The store `r` says of the directory that the step lists what the directory answers. */
  ghost predicate Reads(name: Naming, t: TimedState, tstep: TimedStep, r: Store)
    requires tstep.Call? ==> InRange(tstep.step, t.sessions)
  {
    var asked := Asked(name, t.sessions, tstep);
    asked.Some? && asked.value.event.EList? ==>
      T.Apply(t.store, asked.value.event).1 == T.Listed(Names(name, List(r, asked.value.directory)))
  }

  /** One step: the directory does what it is asked, and a party that polls goes by its answer,
      read as terms. */
  ghost predicate TimedNext(name: Naming, t: TimedState, t': TimedState, tstep: TimedStep) {
    && (tstep.Call? ==> InRange(tstep.step, t.sessions) && !tstep.step.Expire? && T.SECOND <= tstep.ttl)
    && t'.store == StoreAfter(name, t, tstep)
    && if tstep.Call? then
         exists r :: Reads(name, t, tstep, r) && Enabled(State(r, t.sessions), tstep.step)
                     && t'.sessions == Next(State(r, t.sessions), tstep.step).sessions
       else t'.sessions == t.sessions
  }

  ghost predicate IsTimedRun(name: Naming, tstates: seq<TimedState>, tsteps: seq<TimedStep>) {
    && |tstates| == |tsteps| + 1
    && forall k | 0 <= k < |tsteps| :: TimedNext(name, tstates[k], tstates[k + 1], tsteps[k])
  }

  // ----- Each step is one of the rendezvous, between expiries -----

  predicate IsPoll(sessions: seq<Session>, step: Step) {
    step.Act? && step.session < |sessions| && sessions[step.session].Member(step.role).phase.Polling?
  }

  /** What the directory answers to a List is what it holds, in its order. */
  lemma AnswersWhatItHolds(s: T.Store, key: string, clock: int)
    requires key != ""
    ensures T.Apply(s, T.EList(key, clock)).1 == T.Listed(Held(T.Collect(s, clock), key))
  {
  }

  lemma ReadsTheSame(name: Naming, t: TimedState, tstep: TimedStep, r: Store, r': Store)
    requires Injective(name) && tstep.Call? && InRange(tstep.step, t.sessions) && IsPoll(t.sessions, tstep.step)
    requires Reads(name, t, tstep, r) && Shows(name, FoundBy(name, t, tstep), r')
    ensures var d := t.sessions[tstep.step.session].Member(tstep.step.role).directory; List(r, d) == List(r', d)
  {
    var d := t.sessions[tstep.step.session].Member(tstep.step.role).directory;
    AnswersWhatItHolds(t.store, name(d), tstep.clock);
    assert Held(T.Collect(t.store, tstep.clock), name(d)) == Names(name, List(r', d));
    SameNames(name, List(r, d), List(r', d));
  }

  /** What a step does to the sessions depends on the store only by what it lists. */
  lemma SameSessions(r: Store, r': Store, sessions: seq<Session>, step: Step)
    requires !step.Expire? && Enabled(State(r, sessions), step)
    requires IsPoll(sessions, step) ==>
               var d := sessions[step.session].Member(step.role).directory; List(r, d) == List(r', d)
    ensures Enabled(State(r', sessions), step)
    ensures Next(State(r', sessions), step).sessions == Next(State(r, sessions), step).sessions
  {
  }

  lemma PolledMember(x: Session, store: Store, role: Role)
    requires x.Member(role).phase.Polling? && x.Member(role).role == role
    ensures PollOn(store, x, role).Member(role) == Poll(x.Member(role), List(store, x.Member(role).directory))
  {
    var p := x.Member(role);
    assert Poll(p, List(store, p.directory)).role == role;
  }

  /** A party that polls over the directory goes by the very answer that the directory gives,
      and takes the last of its values. */
  lemma PollReadsAnswer(name: Naming, t: TimedState, t': TimedState, tstep: TimedStep) returns (answer: seq<Term>)
    requires TimedNext(name, t, t', tstep) && tstep.Call? && IsPoll(t.sessions, tstep.step)
    requires t.sessions[tstep.step.session].Member(tstep.step.role).role == tstep.step.role
    ensures var (i, role) := (tstep.step.session, tstep.step.role);
      var p := t.sessions[i].Member(role);
      && T.List(t.store, name(p.directory), tstep.clock).1 == T.Listed(Names(name, answer))
      && i < |t'.sessions| && t'.sessions[i].Member(role) == Poll(p, answer)
  {
    hide T.List, Names, Poll, StoreAfter;
    var (i, role) := (tstep.step.session, tstep.step.role);
    var p := t.sessions[i].Member(role);
    var r :| Reads(name, t, tstep, r) && Enabled(State(r, t.sessions), tstep.step)
             && t'.sessions == Next(State(r, t.sessions), tstep.step).sessions;
    answer := List(r, p.directory);
    PolledMember(t.sessions[i], r, role);
  }

  /** What a step does to the store of the rendezvous is what its request says. */
  lemma NextEdits(name: Naming, r: Store, sessions: seq<Session>, step: Step, ttl: int, clock: int, d: Term)
    requires !step.Expire? && Enabled(State(r, sessions), step)
    ensures InRange(step, sessions)
    ensures var asked := Asked(name, sessions, Call(step, ttl, clock));
      List(Next(State(r, sessions), step).store, d)
      == if asked.Some? then
           List(EditedBy(r, asked.value), d)
         else List(r, d)
  {
  }

  lemma AskedIsOn(name: Naming, sessions: seq<Session>, tstep: TimedStep)
    requires Injective(name)
    requires tstep.Call? ==> InRange(tstep.step, sessions) && T.SECOND <= tstep.ttl
    ensures var asked := Asked(name, sessions, tstep);
      asked.Some? ==> On(name, asked.value.event, asked.value.directory, asked.value.value)
  {
  }

  /** Lists that the cache drops expire. */
  lemma DropsExpire(name: Naming, s: T.Store, r: Store, keys: set<string>) returns (left: Store)
    requires Injective(name) && Shows(name, s, r)
    ensures Shows(name, s - keys, left) && AllThinned(r, left)
  {
    left := map d | d in r && name(d) !in keys :: r[d];
    forall d ensures Held(s - keys, name(d)) == Names(name, List(left, d)) && Thinned(List(r, d), List(left, d)) {
      assert Held(s, name(d)) == Names(name, List(r, d));
      ThinnedSelf(List(r, d));
      ThinnedNone(List(r, d));
      if name(d) in keys {
        assert Held(s - keys, name(d)) == [];
      }
    }
  }

  lemma NothingExpires(r: Store)
    ensures AllThinned(r, r)
  {
    forall d ensures Thinned(List(r, d), List(r, d)) {
      ThinnedSelf(List(r, d));
    }
  }

  lemma FoundShows(name: Naming, t: TimedState, tstep: TimedStep, r: Store) returns (left: Store)
    requires Injective(name) && Shows(name, t.store, r)
    requires tstep.Call? ==> InRange(tstep.step, t.sessions)
    ensures Shows(name, FoundBy(name, t, tstep), left) && AllThinned(r, left)
  {
    hide Shows, AllThinned, Asked;
    if tstep.Drops? {
      left := DropsExpire(name, t.store, r, tstep.keys);
    } else if Asked(name, t.sessions, tstep).Some? {
      left := CollectExpires(name, t.store, r, Asked(name, t.sessions, tstep).value.event.clock);
    } else {
      NothingExpires(r);
      left := r;
    }
  }

  /** The rendezvous' step for a step over the directory: the call, if it is one of a party or
      of another client that changes anything. */
  function Untimed(tstep: TimedStep, r: Store): Step {
    if tstep.Call? then tstep.step else Expire(r)
  }

  lemma Reshow(name: Naming, s: T.Store, r: Store, r': Store)
    requires Shows(name, s, r) && forall d :: List(r, d) == List(r', d)
    ensures Shows(name, s, r')
  {
    forall d ensures Held(s, name(d)) == Names(name, List(r', d)) {
      assert Held(s, name(d)) == Names(name, List(r, d));
    }
  }

  lemma Rethin(r: Store, r': Store, left: Store)
    requires AllThinned(r, left) && forall d :: List(r, d) == List(r', d)
    ensures AllThinned(r', left)
  {
    forall d ensures Thinned(List(r', d), List(left, d)) {
      assert Thinned(List(r, d), List(left, d));
    }
  }

  /** What the directory does and leaves, as an operation on the store of the rendezvous and an
      expiry. */
  lemma StoreSimulated(name: Naming, t: TimedState, tstep: TimedStep, r: Store) returns (left: Store)
    requires tstep.Call? ==>
               InRange(tstep.step, t.sessions) && !tstep.step.Expire? && T.SECOND <= tstep.ttl
               && Enabled(State(r, t.sessions), tstep.step)
    requires Injective(name) && Shows(name, FoundBy(name, t, tstep), r)
    ensures Shows(name, StoreAfter(name, t, tstep), left)
    ensures tstep.Call? ==> AllThinned(Next(State(r, t.sessions), tstep.step).store, left)
    ensures !tstep.Call? ==> AllThinned(r, left)
  {
    hide Shows, AllThinned, Asked, Names, Enabled, Next, EditedTerms, T.Apply;
    AskedIsOn(name, t.sessions, tstep);
    var asked := Asked(name, t.sessions, tstep);
    var edited := r;
    if !tstep.Drops? && asked.Some? {
      var (e, d, v) := (asked.value.event, asked.value.directory, asked.value.value);
      edited := EditedBy(r, asked.value);
      left := OperationShows(name, t.store, r, e, d, v);
    } else {
      NothingExpires(r);
      left := r;
    }
    if tstep.Call? {
      forall d ensures List(edited, d) == List(Next(State(r, t.sessions), tstep.step).store, d) {
        NextEdits(name, r, t.sessions, tstep.step, tstep.ttl, tstep.clock, d);
      }
      Rethin(edited, Next(State(r, t.sessions), tstep.step).store, left);
    } else if tstep.Look? {
      LookEdits(name, t, tstep, r);
      Rethin(edited, r, left);
    }
  }

  lemma LookEdits(name: Naming, t: TimedState, tstep: TimedStep, r: Store)
    requires !tstep.Call?
    ensures var asked := Asked(name, t.sessions, tstep);
      asked.Some? ==> forall d ::
        List(EditedBy(r, asked.value), d)
        == List(r, d)
  {
  }

  /** The sessions, and what the directory holds, are those of the rendezvous. */
  ghost predicate Mirrors(name: Naming, t: TimedState, s: State) {
    s.sessions == t.sessions && Shows(name, t.store, s.store)
  }

  /** Every step over the directory is an expiry, the step of the rendezvous, and an expiry. */
  lemma StepSimulated(name: Naming, t: TimedState, t': TimedState, tstep: TimedStep, s: State)
      returns (s1: State, step: Step, s2: State, s3: State)
    requires Injective(name) && TimedNext(name, t, t', tstep) && Mirrors(name, t, s)
    ensures Enabled(s, Expire(s1.store)) && s1 == Next(s, Expire(s1.store))
    ensures s1.sessions == t.sessions && Shows(name, FoundBy(name, t, tstep), s1.store)
    ensures step == Untimed(tstep, s1.store) && Enabled(s1, step) && s2 == Next(s1, step)
    ensures s2.sessions == t'.sessions
    ensures Enabled(s2, Expire(s3.store)) && s3 == Next(s2, Expire(s3.store)) && Mirrors(name, t', s3)
  {
    hide Shows, Reads, StoreAfter, FoundBy, InRange;
    var r1 := FoundShows(name, t, tstep, s.store);
    s1 := State(r1, s.sessions);
    step := Untimed(tstep, r1);
    if tstep.Call? {
      var r :| Reads(name, t, tstep, r) && Enabled(State(r, t.sessions), tstep.step)
               && t'.sessions == Next(State(r, t.sessions), tstep.step).sessions;
      if IsPoll(t.sessions, step) {
        ReadsTheSame(name, t, tstep, r, r1);
      }
      SameSessions(r, r1, t.sessions, step);
    } else {
      NothingExpires(r1);
    }
    s2 := Next(s1, step);
    var left := StoreSimulated(name, t, tstep, r1);
    s3 := State(left, s2.sessions);
  }
}
