/** What runs of directory operations mean: how long a value stays listed, in which order,
    and what one operation does to the keys it does not name. */
module Lifetimes {
  import opened Wrappers
  import opened TimedStore

  // ----- What a caller can see in the history -----

  /** The directory accepts the operation and it is on `key`. */
  predicate Touches(e: Event, key: string) {
    match e
    case EList(k, _) => k == key != ""
    case EAdd(k, value, ttl, _) => k == key != "" && value != "" && SECOND <= ttl
    case ERemove(k, _, _) => k == key != ""
    case Evict(_) => false
  }

  predicate Accepted(e: Event) {
    !e.Evict? && Touches(e, e.key)
  }

  predicate Writes(e: Event, key: string, value: string) {
    Touches(e, key) && !e.EList? && e.value == value
  }

  /** The expiry given by the latest Add of the pair, if no Remove of it came after. */
  function LastWrite(events: seq<Event>, key: string, value: string): Option<int> {
    if events == [] then None
    else
      var e := events[|events| - 1];
      if !Writes(e, key, value) then LastWrite(events[..|events| - 1], key, value)
      else if e.EAdd? then Some(Truncated(e.clock) + e.ttl)
      else None
  }

  /** No operation on the key came after the pair's latest Add had expired. */
  ghost predicate Undisturbed(events: seq<Event>, key: string, value: string) {
    if events == [] then true
    else
      var before, e := events[..|events| - 1], events[|events| - 1];
      Writes(e, key, value)
      || (Undisturbed(before, key, value)
          && (Touches(e, key) && LastWrite(before, key, value).Some? ==>
                Truncated(e.clock) <= LastWrite(before, key, value).value))
  }

  /** Since the pair's latest Add the key's list was not evicted, and no operation came after
      the instant until which the cache held it. */
  ghost predicate Kept(events: seq<Event>, key: string, value: string)
    decreases |events|, 0
  {
    if events == [] then true
    else
      var before, e := events[..|events| - 1], events[|events| - 1];
      Writes(e, key, value)
      || (Kept(before, key, value)
          && (e.Evict? ==> key !in e.keys)
          && (Accepted(e) ==> e.clock <= HeldUntil(before, key)))
  }

  /** The history says that the value is on the key's list. */
  ghost predicate Standing(events: seq<Event>, key: string, value: string)
    decreases |events|, 1
  {
    LastWrite(events, key, value).Some? && Undisturbed(events, key, value) && Kept(events, key, value)
  }

  /** The TTL of the latest Add on the key. */
  function LatestTtl(events: seq<Event>, key: string): int {
    if events == [] then 0
    else
      var e := events[|events| - 1];
      if e.EAdd? && Touches(e, key) then e.ttl else LatestTtl(events[..|events| - 1], key)
  }

  /** Until when the cache holds the key's list: for that TTL from the latest Add, or from the
      latest Remove that found its value. */
  ghost function HeldUntil(events: seq<Event>, key: string): int
    decreases |events|, 0
  {
    if events == [] then 0
    else
      var before, e := events[..|events| - 1], events[|events| - 1];
      if e.EAdd? && Touches(e, key) then e.clock + e.ttl
      else if e.ERemove? && Touches(e, key) && Standing(before, key, e.value) && e.clock <= HeldUntil(before, key) then
        e.clock + LatestTtl(before, key)
      else HeldUntil(before, key)
  }

  // ----- One step -----

  predicate Has(s: Store, key: string, value: string, expireOn: int) {
    Entry(value, expireOn) in Lookup(s, key).entries
  }

  /** Every cached list has distinct values. */
  ghost predicate Distinct(s: Store) {
    forall key | key in s :: NoRepeats(s[key].entries)
  }

  lemma {:induction false} UnexpiredNoRepeats(entries: seq<Entry>, limit: int)
    requires NoRepeats(entries)
    ensures NoRepeats(Unexpired(entries, limit))
  {
    if entries != [] {
      UnexpiredNoRepeats(entries[..|entries| - 1], limit);
      UnexpiredMembers(entries[..|entries| - 1], limit);
    }
  }

  lemma PutEntries(entries: seq<Entry>, value: string, expireOn: int)
    requires NoRepeats(entries)
    ensures NoRepeats(Put(entries, value, expireOn))
    ensures forall e :: e in Put(entries, value, expireOn) <==>
              e == Entry(value, expireOn) || (e in entries && e.value != value)
  {
    var at, put := Find(entries, value), Put(entries, value, expireOn);
    assert put[at] == Entry(value, expireOn);
    forall e | e in entries && e.value != value ensures e in put {
      var i :| 0 <= i < |entries| && entries[i] == e;
      assert put[i] == e;
    }
  }

  lemma WithoutEntries(entries: seq<Entry>, at: nat)
    requires NoRepeats(entries) && at < |entries|
    ensures NoRepeats(Without(entries, at))
    ensures forall e :: e in Without(entries, at) <==> e in entries && e.value != entries[at].value
  {
    var without := Without(entries, at);
    forall e | e in entries && e.value != entries[at].value ensures e in without {
      var i :| 0 <= i < |entries| && entries[i] == e;
      assert without[if i < at then i else i - 1] == e;
    }
  }

  lemma FindMember(entries: seq<Entry>, value: string)
    ensures Find(entries, value) < |entries| <==> exists e :: e in entries && e.value == value
  {
    var at := Find(entries, value);
    if at < |entries| {
      assert entries[at] in entries;
    }
  }

  /** The cache as an operation finds it. */
  function Found(s: Store, e: Event): Store {
    if e.Evict? then s - e.keys else if Accepted(e) then Collect(s, e.clock) else s
  }

  lemma ApplyElsewhere(s: Store, e: Event, key: string)
    requires !Touches(e, key)
    ensures Lookup(Apply(s, e).0, key) == Lookup(Found(s, e), key)
  {
  }

  /** The entries before an accepted operation purges its own list. */
  function Edited(entries: seq<Entry>, e: Event): seq<Entry>
    requires Accepted(e)
  {
    match e
    case EList(_, _) => entries
    case EAdd(_, value, ttl, clock) => Put(entries, value, Truncated(clock) + ttl)
    case ERemove(_, value, _) =>
      var at := Find(entries, value);
      if at < |entries| then Without(entries, at) else entries
  }

  lemma ListEntries(s: Store, key: string, clock: int)
    requires key != ""
    ensures Lookup(List(s, key, clock).0, key).entries
            == Unexpired(Lookup(Collect(s, clock), key).entries, Truncated(clock))
  {
    assert Unexpired([], Truncated(clock)) == [];
  }

  lemma RemoveEntries(s: Store, key: string, value: string, clock: int)
    requires key != ""
    ensures Lookup(Remove(s, key, value, clock).0, key).entries
            == Unexpired(Edited(Lookup(Collect(s, clock), key).entries, ERemove(key, value, clock)), Truncated(clock))
  {
    var found := Lookup(Collect(s, clock), key).entries;
    var entries := Unexpired(Edited(found, ERemove(key, value, clock)), Truncated(clock));
    var after := Remove(s, key, value, clock).0;
    if entries == [] {
      assert key !in after;
    } else {
      assert key in after && after[key].entries == entries;
    }
  }

  lemma ApplyEntries(s: Store, e: Event)
    requires Accepted(e)
    ensures Lookup(Apply(s, e).0, e.key).entries
            == Unexpired(Edited(Lookup(Collect(s, e.clock), e.key).entries, e), Truncated(e.clock))
  {
    match e
    case EList(key, clock) => ListEntries(s, key, clock);
    case EAdd(_, _, _, _) =>
    case ERemove(key, value, clock) => RemoveEntries(s, key, value, clock);
  }

  lemma EditedNoRepeats(entries: seq<Entry>, e: Event)
    requires NoRepeats(entries) && Accepted(e)
    ensures NoRepeats(Unexpired(Edited(entries, e), Truncated(e.clock)))
  {
    if e.EAdd? {
      PutEntries(entries, e.value, Truncated(e.clock) + e.ttl);
    } else if e.ERemove? && Find(entries, e.value) < |entries| {
      WithoutEntries(entries, Find(entries, e.value));
    }
    UnexpiredNoRepeats(Edited(entries, e), Truncated(e.clock));
  }

  lemma EditedEntries(entries: seq<Entry>, e: Event)
    requires NoRepeats(entries) && Accepted(e)
    ensures forall entry :: entry in Edited(entries, e) <==>
              if !e.EList? && entry.value == e.value then e.EAdd? && entry.expireOn == Truncated(e.clock) + e.ttl
              else entry in entries
  {
    if e.EAdd? {
      PutEntries(entries, e.value, Truncated(e.clock) + e.ttl);
    } else if e.ERemove? {
      FindMember(entries, e.value);
      if Find(entries, e.value) < |entries| {
        WithoutEntries(entries, Find(entries, e.value));
      }
    }
  }

  lemma ApplyDistinct(s: Store, e: Event)
    requires Distinct(s)
    ensures Distinct(Apply(s, e).0)
  {
    if Accepted(e) {
      EditedNoRepeats(Lookup(Collect(s, e.clock), e.key).entries, e);
      ApplyEntries(s, e);
      forall key | key in Apply(s, e).0 && key != e.key ensures NoRepeats(Apply(s, e).0[key].entries) {
        ApplyElsewhere(s, e, key);
      }
    }
  }

  /** The exact effect of one operation on what is stored under any key. */
  lemma ApplyHas(s: Store, e: Event, key: string, value: string, expireOn: int)
    requires Distinct(s)
    ensures Has(Apply(s, e).0, key, value, expireOn) <==>
            if Writes(e, key, value) then e.EAdd? && expireOn == Truncated(e.clock) + e.ttl
            else
              && Has(s, key, value, expireOn)
              && (e.Evict? ==> key !in e.keys)
              && (Accepted(e) ==> e.clock <= s[key].deadline)
              && (Touches(e, key) ==> Truncated(e.clock) <= expireOn)
  {
    if Touches(e, key) {
      var entries := Lookup(Collect(s, e.clock), key).entries;
      ApplyEntries(s, e);
      EditedEntries(entries, e);
      UnexpiredMembers(Edited(entries, e), Truncated(e.clock));
      assert Entry(value, expireOn) in Edited(entries, e) <==>
             if Writes(e, key, value) then e.EAdd? && expireOn == Truncated(e.clock) + e.ttl
             else Entry(value, expireOn) in entries;
    } else {
      ApplyElsewhere(s, e, key);
    }
  }

  lemma {:induction false} RunDistinct(events: seq<Event>)
    ensures Distinct(Run(events))
  {
    if events != [] {
      RunDistinct(events[..|events| - 1]);
      ApplyDistinct(Run(events[..|events| - 1]), events[|events| - 1]);
    }
  }

  // ----- Whole runs -----

  lemma RemoveFromNothing(s: Store, key: string, value: string, clock: int)
    requires key != "" && key in Remove(s, key, value, clock).0
    ensures key in Collect(s, clock)
  {
  }

  /** For every run, evictions and list deadlines included, exactly this is stored: the
      values whose latest write is an Add, carrying that Add's expiry, that no operation on
      the key found expired, and whose list the cache has kept since. */
  lemma {:induction false} StoredExactly(events: seq<Event>, key: string, value: string, expireOn: int)
    ensures Has(Run(events), key, value, expireOn) <==>
            && LastWrite(events, key, value) == Some(expireOn)
            && Undisturbed(events, key, value)
            && Kept(events, key, value)
    decreases |events|, 0
  {
    hide Apply, Distinct, Touches, Accepted, Writes, HeldUntil;
    if events != [] {
      var before, e := events[..|events| - 1], events[|events| - 1];
      StoredExactly(before, key, value, expireOn);
      DeadlineExactly(before, key);
      RunDistinct(before);
      ApplyHas(Run(before), e, key, value, expireOn);
    }
  }

  /** A cached list's TTL and deadline are those that the history says. */
  lemma {:induction false} DeadlineExactly(events: seq<Event>, key: string)
    ensures key in Run(events) ==>
              Run(events)[key].ttl == LatestTtl(events, key) && Run(events)[key].deadline == HeldUntil(events, key)
    decreases |events|, 0
  {
    if events != [] {
      var before, e := events[..|events| - 1], events[|events| - 1];
      DeadlineExactly(before, key);
      if e.ERemove? && Touches(e, key) && key in Run(events) {
        RemoveStanding(before, key, e.value, e.clock);
      } else if !Touches(e, key) {
        ApplyElsewhere(Run(before), e, key);
      }
    }
  }

  /** Whether a Remove finds its value, the history says. */
  lemma {:induction false} RemoveStanding(events: seq<Event>, key: string, value: string, clock: int)
    requires key != "" && key in Remove(Run(events), key, value, clock).0
    ensures key in Run(events) && clock <= Run(events)[key].deadline
    ensures var list := Remove(Run(events), key, value, clock).0[key];
      && list.ttl == Run(events)[key].ttl
      && list.deadline == if Standing(events, key, value) then clock + list.ttl else Run(events)[key].deadline
    decreases |events|, 1
  {
    RemoveFromNothing(Run(events), key, value, clock);
    var entries := Run(events)[key].entries;
    FindMember(entries, value);
    if Find(entries, value) < |entries| {
      StoredExactly(events, key, value, entries[Find(entries, value)].expireOn);
    } else if Standing(events, key, value) {
      StoredExactly(events, key, value, LastWrite(events, key, value).value);
    }
  }

  predicate InAnswer(answer: Answer, value: string) {
    answer.Listed? && value in answer.values
  }

  lemma ListAnswer(s: Store, key: string, value: string, clock: int)
    requires key != ""
    ensures InAnswer(List(s, key, clock).1, value) <==> exists x :: Has(Collect(s, clock), key, value, x)
  {
    var entries := Lookup(Collect(s, clock), key).entries;
    var values := Values(entries);
    if x :| Entry(value, x) in entries {
      var i :| 0 <= i < |entries| && entries[i] == Entry(value, x);
      assert values[i] == value;
    }
    if value in values {
      var i :| 0 <= i < |values| && values[i] == value;
      assert Has(Collect(s, clock), key, value, entries[i].expireOn);
    }
  }

  // ----- Nothing is lost early -----

  /** The clock never goes back, and reads at most `now` at the end. */
  ghost predicate Timely(events: seq<Event>, now: int) {
    if events == [] then true
    else
      var before, e := events[..|events| - 1], events[|events| - 1];
      if e.Evict? then Timely(before, now) else e.clock <= now && Timely(before, e.clock)
  }

  predicate NeverEvicted(events: seq<Event>, key: string) {
    forall e | e in events && e.Evict? :: key !in e.keys
  }

  /** No Add on the key since the pair's latest Add gave the list a deadline before that
      Add's expiry. */
  ghost predicate NoShorterAdd(events: seq<Event>, key: string, value: string) {
    if events == [] then true
    else
      var before, e := events[..|events| - 1], events[|events| - 1];
      Writes(e, key, value)
      || (NoShorterAdd(before, key, value)
          && (e.EAdd? && Touches(e, key) && LastWrite(before, key, value).Some? ==>
                LastWrite(before, key, value).value <= e.clock + e.ttl))
  }

  lemma TimelyLater(events: seq<Event>, now: int, later: int)
    requires Timely(events, now) && now <= later
    ensures Timely(events, later)
  {
  }

  lemma {:induction false} UnexpiredUndisturbed(events: seq<Event>, key: string, value: string, now: int)
    requires Timely(events, now)
    requires LastWrite(events, key, value).Some? && Truncated(now) <= LastWrite(events, key, value).value
    ensures Undisturbed(events, key, value)
  {
    if events != [] {
      var before, e := events[..|events| - 1], events[|events| - 1];
      if !Writes(e, key, value) {
        if !e.Evict? {
          TruncatedMonotone(e.clock, now);
          TimelyLater(before, e.clock, now);
        }
        UnexpiredUndisturbed(before, key, value, now);
      }
    }
  }

  lemma RemoveDeadline(s: Store, key: string, value: string, clock: int)
    requires key != "" && key in Remove(s, key, value, clock).0
    requires key in s ==> s[key].deadline <= clock + s[key].ttl
    ensures key in s && Remove(s, key, value, clock).0[key].deadline <= clock + s[key].ttl
    ensures Remove(s, key, value, clock).0[key].ttl == s[key].ttl
  {
    RemoveFromNothing(s, key, value, clock);
  }

  lemma DeadlineStep(s: Store, e: Event, key: string)
    requires Accepted(e) && key in Apply(s, e).0
    requires key in s ==> s[key].deadline <= e.clock + s[key].ttl
    ensures Apply(s, e).0[key].deadline <= e.clock + Apply(s, e).0[key].ttl
  {
    if e.key != key {
      ApplyElsewhere(s, e, key);
    } else if e.ERemove? {
      RemoveDeadline(s, key, e.value, e.clock);
    }
  }

  /** A list's deadline lies at most its TTL ahead of the clock. */
  lemma {:induction false} DeadlineBound(events: seq<Event>, now: int)
    requires Timely(events, now)
    ensures forall key | key in Run(events) :: Run(events)[key].deadline <= now + Run(events)[key].ttl
  {
    if events != [] {
      var before, e := events[..|events| - 1], events[|events| - 1];
      DeadlineBound(before, if e.Evict? then now else e.clock);
      if Accepted(e) {
        forall key | key in Run(events) ensures Run(events)[key].deadline <= now + Run(events)[key].ttl {
          DeadlineStep(Run(before), e, key);
        }
      }
    }
  }

  /** As long as no later Add on the key was shorter, the list holds a value, expired or not,
      at least until its expiry, whatever Removes have stored the list again. */
  lemma {:induction false} DeadlineCovers(events: seq<Event>, key: string, value: string, expireOn: int, now: int)
    requires Timely(events, now) && NoShorterAdd(events, key, value)
    requires Has(Run(events), key, value, expireOn)
    ensures expireOn <= Run(events)[key].deadline
  {
    var before, e := events[..|events| - 1], events[|events| - 1];
    RunDistinct(before);
    ApplyHas(Run(before), e, key, value, expireOn);
    if !Writes(e, key, value) {
      StoredExactly(before, key, value, expireOn);
      var reading := if e.Evict? then now else e.clock;
      DeadlineCovers(before, key, value, expireOn, reading);
      DeadlineBound(before, reading);
    }
  }

  /** Barring eviction, and as long as no later Add on the key was shorter, the list that
      holds an unexpired value has been kept, and will be until the value expires. */
  lemma {:induction false} KeptWhileUnexpired(events: seq<Event>, key: string, value: string, now: int)
    requires Timely(events, now) && NeverEvicted(events, key) && NoShorterAdd(events, key, value)
    requires LastWrite(events, key, value).Some? && now <= LastWrite(events, key, value).value
    ensures Kept(events, key, value)
    ensures key in Run(events) && LastWrite(events, key, value).value <= Run(events)[key].deadline
  {
    var before, e := events[..|events| - 1], events[|events| - 1];
    var x := LastWrite(events, key, value).value;
    if !Writes(e, key, value) {
      if !e.Evict? {
        TimelyLater(before, e.clock, now);
        DeadlineBound(before, e.clock);
      }
      DeadlineExactly(before, key);
      KeptWhileUnexpired(before, key, value, now);
    }
    UnexpiredUndisturbed(events, key, value, now);
    StoredExactly(events, key, value, x);
  }

  /** The lifetime of a value over every run on a forward clock without evictions of its
      key: while the clock has not passed `expireOn`, the value is stored with that expiry,
      on a list the cache still returns, exactly when its latest write is an Add that set
      that expiry. */
  lemma NoPrematureLoss(events: seq<Event>, key: string, value: string, expireOn: int, now: int)
    requires Timely(events, now) && NeverEvicted(events, key) && NoShorterAdd(events, key, value)
    requires now <= expireOn
    ensures Has(Collect(Run(events), now), key, value, expireOn) <==> LastWrite(events, key, value) == Some(expireOn)
  {
    StoredExactly(events, key, value, expireOn);
    if LastWrite(events, key, value) == Some(expireOn) {
      KeptWhileUnexpired(events, key, value, now);
      UnexpiredUndisturbed(events, key, value, now);
    }
  }

  predicate OneTtl(events: seq<Event>, key: string, ttl: int) {
    forall e | e in events && e.EAdd? && Touches(e, key) :: e.ttl == ttl
  }

  lemma {:induction false} OneTtlNeverShorter(events: seq<Event>, key: string, value: string, ttl: int, now: int)
    requires Timely(events, now) && OneTtl(events, key, ttl)
    ensures NoShorterAdd(events, key, value)
    ensures LastWrite(events, key, value).Some? ==> LastWrite(events, key, value).value <= now + ttl
  {
    if events != [] {
      var before, e := events[..|events| - 1], events[|events| - 1];
      OneTtlNeverShorter(before, key, value, ttl, if e.Evict? then now else e.clock);
    }
  }

  /** With one TTL, at all times every cached list's deadline covers every value on it. */
  lemma OneTtlDeadlineCovers(events: seq<Event>, key: string, ttl: int, now: int)
    requires Timely(events, now) && OneTtl(events, key, ttl)
    ensures forall e | key in Run(events) && e in Run(events)[key].entries :: e.expireOn <= Run(events)[key].deadline
  {
    forall e | key in Run(events) && e in Run(events)[key].entries ensures e.expireOn <= Run(events)[key].deadline {
      OneTtlNeverShorter(events, key, e.value, ttl, now);
      DeadlineCovers(events, key, e.value, e.expireOn, now);
    }
  }

  /** The case the directory's interface promises: all Adds to the key use one TTL. */
  lemma OneTtlNoPrematureLoss(events: seq<Event>, key: string, value: string, ttl: int, now: int)
    requires key != ""
    requires Timely(events, now) && NeverEvicted(events, key) && OneTtl(events, key, ttl)
    requires LastWrite(events, key, value).Some? && now <= LastWrite(events, key, value).value
    ensures InAnswer(List(Run(events), key, now).1, value)
  {
    OneTtlNeverShorter(events, key, value, ttl, now);
    NoPrematureLoss(events, key, value, LastWrite(events, key, value).value, now);
    ListAnswer(Run(events), key, value, now);
  }

  /** With mixed TTLs the promise can fail, and exactly so: an Add of another value leaves a
      stored value listed through the rest of its life, if nothing else happens, just when
      the deadline that Add sets is not before the value's expiry. */
  lemma MixedTtl(s: Store, key: string, value: string, expireOn: int, add: Event)
    requires Distinct(s) && add.EAdd? && Touches(add, key) && add.value != value
    requires Has(Collect(s, add.clock), key, value, expireOn) && add.clock <= expireOn
    ensures (forall now | add.clock <= now <= expireOn :: InAnswer(List(Apply(s, add).0, key, now).1, value))
            <==> expireOn <= add.clock + add.ttl
  {
    var after := Apply(s, add).0;
    ApplyHas(s, add, key, value, expireOn);
    forall now ensures Has(Collect(after, now), key, value, expireOn) <==> now <= after[key].deadline {
    }
    forall now: int ensures InAnswer(List(after, key, now).1, value) <==> now <= after[key].deadline {
      ListAnswer(after, key, value, now);
    }
    if after[key].deadline < expireOn {
      assert !InAnswer(List(after, key, after[key].deadline + 1).1, value);
    }
  }

  /** A value with three minutes is gone after sixteen seconds, because another was added with
      fifteen. */
  lemma ShorterAddLoses()
    ensures var events := [EAdd("k", "v", 180 * SECOND, 0), EAdd("k", "w", 15 * SECOND, 0)];
      LastWrite(events, "k", "v") == Some(180 * SECOND) && !InAnswer(List(Run(events), "k", 16 * SECOND).1, "v")
  {
    var first, second := EAdd("k", "v", 180 * SECOND, 0), EAdd("k", "w", 15 * SECOND, 0);
    var events := [first, second];
    assert events[..1] == [first] && [first][..0] == [];
    DeadlineExactly(events, "k");
    ListAnswer(Run(events), "k", "v", 16 * SECOND);
  }

  // ----- Nothing stays much too long -----

  /** After an accepted operation on a key nothing is left there that expired before it. */
  lemma NothingExpiredLeft(events: seq<Event>, key: string, value: string, expireOn: int)
    requires events != [] && Touches(events[|events| - 1], key)
    requires Has(Run(events), key, value, expireOn)
    ensures Truncated(events[|events| - 1].clock) <= expireOn
  {
    RunDistinct(events[..|events| - 1]);
    ApplyHas(Run(events[..|events| - 1]), events[|events| - 1], key, value, expireOn);
  }

  /** Without an Add of the pair, nothing but what was there can be there later. */
  lemma {:induction false} NotAddedMeanwhile(
      before: seq<Event>, meanwhile: seq<Event>, key: string, value: string, expireOn: int)
    requires forall e | e in meanwhile :: !(e.EAdd? && Writes(e, key, value))
    requires Has(Run(before + meanwhile), key, value, expireOn)
    ensures Has(Run(before), key, value, expireOn)
  {
    if meanwhile == [] {
      assert before + meanwhile == before;
    } else {
      var init, e := meanwhile[..|meanwhile| - 1], meanwhile[|meanwhile| - 1];
      assert (before + meanwhile)[..|before + meanwhile| - 1] == before + init;
      assert (before + meanwhile)[|before + meanwhile| - 1] == e;
      RunDistinct(before + init);
      ApplyHas(Run(before + init), e, key, value, expireOn);
      NotAddedMeanwhile(before, init, key, value, expireOn);
    }
  }

  predicate AllExpired(s: Store, key: string, value: string, limit: int) {
    forall entry | entry in Lookup(s, key).entries && entry.value == value :: entry.expireOn < limit
  }

  /** A value that had expired when an operation on its key was accepted is not in any later
      answer, at any clock, unless it was added again; so an expired value is in at most
      one answer. */
  lemma ExpiredListedAtMostOnce(before: seq<Event>, meanwhile: seq<Event>, key: string, value: string, now: int)
    requires before != [] && Touches(before[|before| - 1], key)
    requires AllExpired(Run(before[..|before| - 1]), key, value, Truncated(before[|before| - 1].clock))
    requires forall e | e in [before[|before| - 1]] + meanwhile :: !(e.EAdd? && Writes(e, key, value))
    ensures !InAnswer(List(Run(before + meanwhile), key, now).1, value)
  {
    var e := before[|before| - 1];
    assert e in [e] + meanwhile;
    ListAnswer(Run(before + meanwhile), key, value, now);
    if x :| Has(Collect(Run(before + meanwhile), now), key, value, x) {
      NotAddedMeanwhile(before, meanwhile, key, value, x);
      RunDistinct(before[..|before| - 1]);
      ApplyHas(Run(before[..|before| - 1]), e, key, value, x);
    }
  }

  // ----- Order -----

  predicate Present(s: Store, key: string, value: string) {
    Find(Lookup(s, key).entries, value) < |Lookup(s, key).entries|
  }

  /** The step at which the value came to be on the key's list, where it has been since. */
  ghost function Arrival(events: seq<Event>, key: string, value: string): nat {
    if events == [] then 0
    else
      var before := events[..|events| - 1];
      if Present(Found(Run(before), events[|events| - 1]), key, value) then Arrival(before, key, value)
      else |events|
  }

  ghost predicate Ordered(entries: seq<Entry>, rank: string -> nat) {
    forall i, j | 0 <= i < j < |entries| :: rank(entries[i].value) < rank(entries[j].value)
  }

  lemma {:induction false} UnexpiredOrdered(entries: seq<Entry>, rank: string -> nat, limit: int)
    requires Ordered(entries, rank)
    ensures Ordered(Unexpired(entries, limit), rank)
  {
    if entries != [] {
      var init := entries[..|entries| - 1];
      UnexpiredOrdered(init, rank, limit);
      UnexpiredMembers(init, limit);
      var kept := Unexpired(init, limit);
      forall i | 0 <= i < |kept| ensures rank(kept[i].value) < rank(entries[|entries| - 1].value) {
        assert kept[i] in init;
      }
    }
  }

  lemma ArrivalBound(events: seq<Event>, key: string, value: string)
    ensures Arrival(events, key, value) <= |events|
  {
  }

  lemma EditedOrdered(entries: seq<Entry>, rank: string -> nat, e: Event)
    requires Accepted(e) && Ordered(entries, rank)
    requires e.EAdd? && Find(entries, e.value) == |entries| ==>
               forall i | 0 <= i < |entries| :: rank(entries[i].value) < rank(e.value)
    ensures Ordered(Unexpired(Edited(entries, e), Truncated(e.clock)), rank)
  {
    UnexpiredOrdered(Edited(entries, e), rank, Truncated(e.clock));
  }

  lemma ArrivalStep(events: seq<Event>, key: string, entry: Entry)
    requires events != []
    requires entry in Lookup(Found(Run(events[..|events| - 1]), events[|events| - 1]), key).entries
    ensures Arrival(events, key, entry.value) == Arrival(events[..|events| - 1], key, entry.value) < |events|
  {
    FindMember(Lookup(Found(Run(events[..|events| - 1]), events[|events| - 1]), key).entries, entry.value);
    ArrivalBound(events[..|events| - 1], key, entry.value);
  }

  /** Over every run, each list is in the order in which its values came onto it. */
  lemma {:induction false} FirstInsertionOrder(events: seq<Event>, key: string)
    ensures Ordered(Lookup(Run(events), key).entries, value => Arrival(events, key, value))
  {
    if events != [] {
      var before, e := events[..|events| - 1], events[|events| - 1];
      var rank: string -> nat := value => Arrival(events, key, value);
      var entries := Lookup(Found(Run(before), e), key).entries;
      FirstInsertionOrder(before, key);
      assert Ordered(entries, value => Arrival(before, key, value));
      forall i | 0 <= i < |entries|
        ensures rank(entries[i].value) == Arrival(before, key, entries[i].value) < |events|
      {
        ArrivalStep(events, key, entries[i]);
      }
      assert Ordered(entries, rank);
      if Touches(e, key) {
        EditedOrdered(entries, rank, e);
        ApplyEntries(Run(before), e);
      }
    }
  }

  predicate OrderedValues(values: seq<string>, rank: string -> nat) {
    forall i, j | 0 <= i < j < |values| :: rank(values[i]) < rank(values[j])
  }

  /** Over every run and at every clock a List answers in that order: what came onto the list
      first comes first. */
  lemma ListsInOrder(events: seq<Event>, key: string, clock: int)
    requires key != ""
    ensures List(Run(events), key, clock).1.Listed?
    ensures OrderedValues(List(Run(events), key, clock).1.values, value => Arrival(events, key, value))
  {
    FirstInsertionOrder(events, key);
  }

  lemma NewEntry(s: Store, add: Event)
    requires add.EAdd? && Accepted(add) && !Present(Collect(s, add.clock), add.key, add.value)
    ensures add.key in Apply(s, add).0 && Apply(s, add).0[add.key].deadline == add.clock + add.ttl
    ensures Apply(s, add).0[add.key].entries
            == Unexpired(Lookup(Collect(s, add.clock), add.key).entries, Truncated(add.clock))
               + [Entry(add.value, Truncated(add.clock) + add.ttl)]
  {
    var found := Lookup(Collect(s, add.clock), add.key).entries;
    var entry := Entry(add.value, Truncated(add.clock) + add.ttl);
    assert Put(found, add.value, entry.expireOn) == found + [entry];
    assert (found + [entry])[..|found|] == found;
  }

  /** So the value that is added to a list on which it is not comes last in the next answer. */
  lemma AddedComesLast(events: seq<Event>, add: Event, clock: int)
    requires add.EAdd? && Accepted(add) && !Present(Found(Run(events), add), add.key, add.value)
    requires add.clock <= clock <= add.clock + add.ttl
    ensures var answer := List(Run(events + [add]), add.key, clock).1;
      answer.Listed? && answer.values != [] && answer.values[|answer.values| - 1] == add.value
  {
    hide Apply, Put, Unexpired, Find;
    assert (events + [add])[..|events|] == events;
    NewEntry(Run(events), add);
    assert Lookup(Collect(Run(events + [add]), clock), add.key) == Run(events + [add])[add.key];
  }

  /** Every operation that is not accepted is answered so and changes nothing; every other is
      answered as its kind asks.  An accepted Remove leaves no empty list behind. */
  lemma Answers(s: Store, e: Event)
    requires !e.Evict?
    ensures !Accepted(e) ==> Apply(s, e) == (s, Invalid)
    ensures Accepted(e) ==> if e.EList? then Apply(s, e).1.Listed? else Apply(s, e).1.Done?
    ensures Accepted(e) && e.ERemove? && e.key in Apply(s, e).0 ==> Apply(s, e).0[e.key].entries != []
  {
  }

  // ----- Other keys -----

  /** An operation on one key changes nothing that can later be seen under another. */
  lemma OtherKeysUnchanged(s: Store, e: Event, key: string, later: int)
    requires !e.Evict? && e.key != key && e.clock <= later
    ensures Lookup(Collect(Apply(s, e).0, later), key) == Lookup(Collect(s, later), key)
    ensures List(Apply(s, e).0, key, later).1 == List(s, key, later).1
  {
    ApplyElsewhere(s, e, key);
    assert key in Apply(s, e).0 <==> key in Found(s, e);
  }

  // ----- What is seen as long as nothing has expired -----

  predicate AllAlive(s: Store, key: string, clock: int) {
    forall e | e in Lookup(Collect(s, clock), key).entries :: Truncated(clock) <= e.expireOn
  }

  function Listing(s: Store, key: string): seq<string> {
    Values(Lookup(s, key).entries)
  }

  lemma {:induction false} UnexpiredAll(entries: seq<Entry>, limit: int)
    requires forall e | e in entries :: limit <= e.expireOn
    ensures Unexpired(entries, limit) == entries
  {
    if entries != [] {
      UnexpiredAll(entries[..|entries| - 1], limit);
    }
  }

  lemma ListedAt(entries: seq<Entry>, value: string)
    ensures value in Values(entries) <==> Find(entries, value) < |entries|
  {
    if Find(entries, value) < |entries| {
      assert Values(entries)[Find(entries, value)] == value;
    }
  }

  lemma PutValues(entries: seq<Entry>, value: string, expireOn: int)
    ensures Values(Put(entries, value, expireOn))
            == if value in Values(entries) then Values(entries) else Values(entries) + [value]
  {
    ListedAt(entries, value);
  }

  lemma WithoutValues(entries: seq<Entry>, at: nat)
    requires at < |entries|
    ensures Values(Without(entries, at)) == Dropped(Values(entries), at)
  {
  }

  function Dropped(values: seq<string>, at: nat): seq<string>
    requires at < |values|
  {
    values[..at] + values[at + 1..]
  }

  lemma AddValues(entries: seq<Entry>, value: string, expireOn: int, limit: int)
    requires NoRepeats(entries) && limit <= expireOn && forall e | e in entries :: limit <= e.expireOn
    ensures Values(Unexpired(Put(entries, value, expireOn), limit))
            == if value in Values(entries) then Values(entries) else Values(entries) + [value]
  {
    PutAlive(entries, value, expireOn, limit);
    PutValues(entries, value, expireOn);
  }

  lemma AddEntries(s: Store, key: string, value: string, ttl: int, clock: int)
    requires Touches(EAdd(key, value, ttl, clock), key)
    ensures Lookup(Add(s, key, value, ttl, clock).0, key).entries
            == Unexpired(Put(Lookup(Collect(s, clock), key).entries, value, Truncated(clock) + ttl), Truncated(clock))
  {
  }

  lemma PutAlive(entries: seq<Entry>, value: string, expireOn: int, limit: int)
    requires NoRepeats(entries) && limit <= expireOn && forall e | e in entries :: limit <= e.expireOn
    ensures Unexpired(Put(entries, value, expireOn), limit) == Put(entries, value, expireOn)
  {
    PutEntries(entries, value, expireOn);
    UnexpiredAll(Put(entries, value, expireOn), limit);
  }

  /** Adding a value that is listed changes nothing but its expiry, where it stands; any
      other value comes last. */
  lemma AddInPlace(s: Store, key: string, value: string, ttl: int, clock: int)
    requires Distinct(s) && Touches(EAdd(key, value, ttl, clock), key) && AllAlive(s, key, clock)
    ensures var was := Listing(Collect(s, clock), key);
      Listing(Add(s, key, value, ttl, clock).0, key) == if value in was then was else was + [value]
  {
    hide Add, Put, Unexpired;
    AddEntries(s, key, value, ttl, clock);
    AddValues(Lookup(Collect(s, clock), key).entries, value, Truncated(clock) + ttl, Truncated(clock));
  }

  /** Removing a value drops it and nothing else. */
  lemma RemoveDropsOne(s: Store, key: string, value: string, clock: int)
    requires Distinct(s) && key != "" && AllAlive(s, key, clock)
    ensures var (was, after) := (Listing(Collect(s, clock), key), Listing(Remove(s, key, value, clock).0, key));
      if value in was then exists i | 0 <= i < |was| :: was[i] == value && after == Dropped(was, i) else after == was
  {
    var entries := Lookup(Collect(s, clock), key).entries;
    var at := Find(entries, value);
    ListedAt(entries, value);
    RemoveEntries(s, key, value, clock);
    if at < |entries| {
      WithoutEntries(entries, at);
      WithoutValues(entries, at);
      UnexpiredAll(Without(entries, at), Truncated(clock));
      assert Values(entries)[at] == value;
    } else {
      UnexpiredAll(entries, Truncated(clock));
    }
  }
}
