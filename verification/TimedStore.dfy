/** The directory as a value: what `List`, `Add` and `Remove` of the in-memory directory do
    to its cache of lists, and what that means for whole runs of operations.

    Instants and durations are nanoseconds.  Keys are plain strings: for a fixed domain the
    key hash is treated as injective. */
module TimedStore {

  const MILLISECOND: int := 1_000_000
  const SECOND: int := 1_000_000_000
  const MINUTE: int := 60 * SECOND

  /** The clock as the directory reads it: truncated to the millisecond. */
  function Truncated(clock: int): (t: int)
    ensures t <= clock < t + MILLISECOND && t % MILLISECOND == 0
  {
    clock - clock % MILLISECOND
  }

  lemma TruncatedMonotone(earlier: int, later: int)
    requires earlier <= later
    ensures Truncated(earlier) <= Truncated(later)
  {
  }

  datatype Entry = Entry(value: string, expireOn: int)

  /** A list held by the cache: the TTL of the latest Add, the values with their own
      expiry, and the instant after which the cache no longer returns the list. */
  datatype Cached = Cached(ttl: int, entries: seq<Entry>, deadline: int)

  type Store = map<string, Cached>

  datatype Answer = Invalid | Done | Listed(values: seq<string>)

  // ----- One list -----

  function Values(entries: seq<Entry>): (values: seq<string>)
    ensures |values| == |entries|
    ensures forall i | 0 <= i < |values| :: values[i] == entries[i].value
  {
    seq(|entries|, i requires 0 <= i < |entries| => entries[i].value)
  }

  ghost predicate NoRepeats(entries: seq<Entry>) {
    forall i, j | 0 <= i < j < |entries| :: entries[i].value != entries[j].value
  }

  /** The entries that have not expired before `limit`, in order. */
  function Unexpired(entries: seq<Entry>, limit: int): seq<Entry>
  {
    if entries == [] then []
    else
      var init, last := Unexpired(entries[..|entries| - 1], limit), entries[|entries| - 1];
      if last.expireOn < limit then init else init + [last]
  }

  lemma {:induction false} UnexpiredMembers(entries: seq<Entry>, limit: int)
    ensures forall e :: e in Unexpired(entries, limit) <==> e in entries && limit <= e.expireOn
  {
    if entries != [] {
      UnexpiredMembers(entries[..|entries| - 1], limit);
      assert entries == entries[..|entries| - 1] + [entries[|entries| - 1]];
    }
  }

  /** Where `value` stands in the list; the length of the list if it is not there. */
  function Find(entries: seq<Entry>, value: string): (at: nat)
    ensures at <= |entries|
    ensures forall i | 0 <= i < at :: entries[i].value != value
    ensures at < |entries| ==> entries[at].value == value
  {
    if entries == [] then 0
    else if entries[0].value == value then 0
    else 1 + Find(entries[1..], value)
  }

  function Put(entries: seq<Entry>, value: string, expireOn: int): seq<Entry> {
    var at := Find(entries, value);
    if at == |entries| then entries + [Entry(value, expireOn)]
    else entries[at := Entry(value, expireOn)]
  }

  function Without(entries: seq<Entry>, at: nat): seq<Entry>
    requires at < |entries|
  {
    entries[..at] + entries[at + 1..]
  }

  // ----- The cache -----

  /** The cache forgets every list whose deadline has passed. */
  function Collect(s: Store, clock: int): Store {
    map key | key in s && clock <= s[key].deadline :: s[key]
  }

  /** The list the cache holds for a key, or a new empty one. */
  function Lookup(s: Store, key: string): Cached {
    if key in s then s[key] else Cached(0, [], 0)
  }

  // ----- The three operations -----

  function List(s: Store, key: string, clock: int): (Store, Answer) {
    if key == "" then (s, Invalid)
    else
      var s := Collect(s, clock);
      var list := Lookup(s, key);
      var purged := list.(entries := Unexpired(list.entries, Truncated(clock)));
      (if key in s then s[key := purged] else s, Listed(Values(list.entries)))
  }

  function Add(s: Store, key: string, value: string, ttl: int, clock: int): (Store, Answer) {
    if key == "" || value == "" || ttl < SECOND then (s, Invalid)
    else
      var s := Collect(s, clock);
      var now := Truncated(clock);
      var entries := Put(Lookup(s, key).entries, value, now + ttl);
      (s[key := Cached(ttl, Unexpired(entries, now), clock + ttl)], Done)
  }

  function Remove(s: Store, key: string, value: string, clock: int): (Store, Answer) {
    if key == "" then (s, Invalid)
    else
      var s := Collect(s, clock);
      var list := Lookup(s, key);
      var at := Find(list.entries, value);
      var found := at < |list.entries|;
      var entries := Unexpired(if found then Without(list.entries, at) else list.entries, Truncated(clock));
      var deadline := if found then clock + list.ttl else list.deadline;
      (if entries == [] then s - {key} else s[key := Cached(list.ttl, entries, deadline)], Done)
  }

  // ----- Runs -----

  /** One step of a run.  `Evict` is the cache dropping lists on its own. */
  datatype Event =
    | EList(key: string, clock: int)
    | EAdd(key: string, value: string, ttl: int, clock: int)
    | ERemove(key: string, value: string, clock: int)
    | Evict(keys: set<string>)

  function Apply(s: Store, e: Event): (Store, Answer) {
    match e
    case EList(key, clock) => List(s, key, clock)
    case EAdd(key, value, ttl, clock) => Add(s, key, value, ttl, clock)
    case ERemove(key, value, clock) => Remove(s, key, value, clock)
    case Evict(keys) => (s - keys, Done)
  }

  function Run(events: seq<Event>): Store {
    if events == [] then map[]
    else Apply(Run(events[..|events| - 1]), events[|events| - 1]).0
  }
}
