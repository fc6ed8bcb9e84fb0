/** The in-memory directory: lists of pointers to entries inside a cache, rewritten in
    place.  Every operation is proved to do to the cached lists what `TimedStore` says. */
module Memory {
  import opened TimedStore

  /** SHA-256 of domain and key, as a symbolic term. */
  datatype HashedKey = KeyHash(domain: string, key: string)

  class ValueEntry {
    const value: string
    var expireOn: int

    constructor (value: string, expireOn: int)
      ensures this.value == value && this.expireOn == expireOn
    {
      this.value, this.expireOn := value, expireOn;
    }
  }

  /** A TTL and a slice of pointers: the first `count` places of a backing array.  The
      entries the pointers stand for are `entries`. */
  class KeyList {
    var ttl: int
    var slots: array<ValueEntry?>
    var count: nat
    ghost var entries: seq<Entry>
    ghost var Repr: set<object>

    constructor ()
      ensures Valid() && fresh(Repr) && ttl == 0 && entries == []
    {
      ttl, count, slots, entries := 0, 0, new ValueEntry?[0], [];
      Repr := {this, slots};
    }

    ghost predicate Valid()
      reads this, Repr
    {
      && this in Repr && slots in Repr
      && count == |entries| <= slots.Length
      && (forall i | 0 <= i < count ::
            && slots[i] != null && slots[i] in Repr
            && entries[i] == Entry(slots[i].value, slots[i].expireOn))
      && (forall i, j | 0 <= i < j < count :: slots[i] != slots[j])
    }

    ghost function Pointers(): set<ValueEntry>
      reads this, slots
    {
      set i | 0 <= i < count && i < slots.Length && slots[i] != null :: slots[i]
    }
  }

  // ----- The slice operations -----

  lemma UnexpiredNext(entries: seq<Entry>, i: nat, limit: int)
    requires i < |entries|
    ensures Unexpired(entries[..i + 1], limit)
            == Unexpired(entries[..i], limit) + if limit <= entries[i].expireOn then [entries[i]] else []
  {
    assert entries[..i + 1][..i] == entries[..i];
  }

  /** Moves the slice to a larger backing array. */
  method Grow(list: KeyList)
    requires list.Valid()
    modifies list`slots, list`Repr
    ensures list.Valid() && fresh(list.slots) && list.count < list.slots.Length
    ensures list.Pointers() == old(list.Pointers()) && list.Repr == old(list.Repr) + {list.slots}
  {
    var larger := new ValueEntry?[2 * list.count + 1];
    for i := 0 to list.count
      modifies larger
      invariant forall j | 0 <= j < i :: larger[j] == list.slots[j]
    {
      larger[i] := list.slots[i];
    }
    list.slots := larger;
    list.Repr := list.Repr + {larger};
  }

  method Place(list: KeyList, entry: ValueEntry)
    requires list.Valid() && entry !in list.Pointers() && list.count < list.slots.Length
    modifies list`count, list`entries, list`Repr, list.slots
    ensures list.Valid() && list.Pointers() <= old(list.Pointers()) + {entry} && list.Repr == old(list.Repr) + {entry}
    ensures forall i | 0 <= i < list.slots.Length && i != old(list.count) :: list.slots[i] == old(list.slots[i])
    ensures list.entries == old(list.entries) + [Entry(entry.value, entry.expireOn)]
  {
    assert forall i | 0 <= i < list.count :: list.slots[i] in list.Pointers();
    list.slots[list.count] := entry;
    list.count, list.entries := list.count + 1, list.entries + [Entry(entry.value, entry.expireOn)];
    list.Repr := list.Repr + {entry};
  }

  /** Go's `append`: in place while the backing array has room. */
  method Append(list: KeyList, entry: ValueEntry)
    requires list.Valid() && entry !in list.Pointers()
    modifies list`count, list`entries, list`slots, list`Repr, list.slots
    ensures list.Valid() && list.Pointers() <= old(list.Pointers()) + {entry}
    ensures old(list.count) < old(list.slots.Length) ==>
              && list.slots == old(list.slots)
              && forall i | 0 <= i < list.slots.Length && i != old(list.count) :: list.slots[i] == old(list.slots[i])
    ensures fresh(list.Repr - old(list.Repr) - {entry}) && old(list.Repr) <= list.Repr
    ensures old(list.count) < old(list.slots.Length) && entry in old(list.Repr) ==> list.Repr == old(list.Repr)
    ensures list.entries == old(list.entries) + [Entry(entry.value, entry.expireOn)]
  {
    if list.count == list.slots.Length {
      Grow(list);
    }
    Place(list, entry);
  }

  /** Keeps the entries that have not expired, appending them to the emptied slice while
      still reading it. */
  method PurgeKeyList(list: KeyList, limit: int)
    requires list.Valid()
    modifies list`count, list`entries, list`slots, list`Repr, list.slots
    ensures list.Valid() && list.Repr == old(list.Repr)
    ensures list.entries == Unexpired(old(list.entries), limit)
  {
    var n := list.count;
    ghost var was, entries := list.slots[..], list.entries;
    list.count, list.entries := 0, [];
    for i := 0 to n
      invariant list.Valid() && list.slots == old(list.slots) && list.Repr == old(list.Repr)
      invariant list.entries == Unexpired(entries[..i], limit) && list.count <= i
      invariant forall j | i <= j < n :: list.slots[j] == was[j]
      invariant list.Pointers() <= set j | 0 <= j < i :: was[j]
    {
      var entry := list.slots[i];
      UnexpiredNext(entries, i, limit);
      if limit <= entry.expireOn {
        Append(list, entry);
      }
    }
    assert entries[..n] == entries;
  }

  /** The place of the first entry with the value, or -1. */
  method Contains(list: KeyList, value: string) returns (found: bool, pos: int)
    requires list.Valid()
    ensures found <==> pos != -1
    ensures pos == if Find(list.entries, value) < list.count then Find(list.entries, value) else -1
  {
    for i := 0 to list.count
      invariant forall j | 0 <= j < i :: list.entries[j].value != value
    {
      if list.slots[i].value == value {
        return true, i;
      }
    }
    return false, -1;
  }

  /** Removes the entry at `pos` by appending what stands behind it to the slice cut there. */
  method RemoveAt(list: KeyList, pos: nat)
    requires list.Valid() && pos < list.count
    modifies list`count, list`entries, list`slots, list`Repr, list.slots
    ensures list.Valid() && list.Repr == old(list.Repr)
    ensures list.entries == Without(old(list.entries), pos)
  {
    var n := list.count;
    ghost var was, entries := list.slots[..], list.entries;
    list.count, list.entries := pos, list.entries[..pos];
    for i := pos + 1 to n
      invariant list.Valid() && list.slots == old(list.slots) && list.Repr == old(list.Repr)
      invariant list.entries == entries[..pos] + entries[pos + 1..i]
      invariant forall j | i <= j < n :: list.slots[j] == was[j]
      invariant list.Pointers() <= set j | 0 <= j < i :: was[j]
    {
      Append(list, list.slots[i]);
    }
  }

  /** Writes through the pointer at `pos`. */
  method SetExpiry(list: KeyList, pos: nat, expireOn: int)
    requires list.Valid() && pos < list.count
    modifies list`entries, list.slots[pos]
    ensures list.Valid() && list.entries == old(list.entries)[pos := Entry(old(list.entries)[pos].value, expireOn)]
  {
    list.slots[pos].expireOn := expireOn;
    list.entries := list.entries[pos := Entry(list.entries[pos].value, expireOn)];
  }

  method Copied(list: KeyList) returns (result: array<string>)
    requires list.Valid()
    ensures fresh(result) && result[..] == Values(list.entries)
  {
    result := new string[list.count];
    for i := 0 to list.count
      invariant forall j | 0 <= j < i :: result[j] == list.entries[j].value
    {
      result[i] := list.slots[i].value;
    }
  }

  // ----- The directory -----

  /** What the cache holds under a hashed key. */
  datatype Slot = Slot(list: KeyList, deadline: int)

  class Memory {
    const domain: string
    var cache: map<HashedKey, Slot>
    ghost var contents: Store
    ghost var Repr: set<object>

    constructor (domain: string)
      ensures Valid() && fresh(Repr) && contents == map[] && this.domain == domain
    {
      this.domain, cache, contents, Repr := domain, map[], map[], {this};
    }

    ghost function ListOf(key: string): KeyList
      requires KeyHash(domain, key) in cache
      reads this
    {
      cache[KeyHash(domain, key)].list
    }

    /** What the cache holds under the key stands for what `contents` has there. */
    ghost predicate Holds(key: string)
      reads this, Repr
    {
      var h := KeyHash(domain, key);
      && (h in cache <==> key in contents)
      && (h in cache ==>
            && ListOf(key) in Repr && ListOf(key).Repr <= Repr && this !in ListOf(key).Repr && ListOf(key).Valid()
            && contents[key] == Cached(ListOf(key).ttl, ListOf(key).entries, cache[h].deadline))
    }

    /** The list shares no memory with what the cache holds under the key. */
    ghost predicate Apart(list: KeyList, key: string)
      reads this, Repr, list
    {
      KeyHash(domain, key) in cache ==> ListOf(key) in Repr && ListOf(key).Repr !! list.Repr
    }

    /** What the cache holds under two keys shares no memory. */
    ghost predicate Disjoint(key: string, key': string)
      reads this, Repr
    {
      KeyHash(domain, key) in cache ==> ListOf(key) in Repr && Apart(ListOf(key), key')
    }

    /** Valid, whatever is under one key. */
    ghost predicate ValidBut(key: string)
      reads this, Repr
    {
      && this in Repr
      && (forall k | k != key :: Holds(k))
      && (forall k, k' | k != key && k' != key && k != k' :: Disjoint(k, k'))
    }

    ghost predicate Valid()
      reads this, Repr
    {
      && this in Repr
      && (forall k :: Holds(k))
      && (forall k, k' | k != k' :: Disjoint(k, k'))
      && "" !in contents
    }

    /** The list may come to stand under the key, or stands there. */
    ghost predicate Fits(list: KeyList, key: string)
      reads this, Repr, list, list.Repr
    {
      && ValidBut(key) && "" !in contents && key != ""
      && list.Valid() && this !in list.Repr
      && forall k | k != key :: Apart(list, k)
    }

    // ----- The cache, as far as it is known -----

    /** The cache drops lists whenever it likes. */
    method Evict(keys: set<string>)
      requires Valid()
      modifies `cache, `contents
      ensures Valid()
      ensures contents == old(contents) - keys
    {
      cache := map h | h in cache && h.key !in keys :: cache[h];
      contents := contents - keys;
      assert forall k :: old(Holds(k)) ==> Holds(k);
      assert forall k, k' :: old(Disjoint(k, k')) ==> Disjoint(k, k');
    }

    /** The cache drops every list that has passed its deadline. */
    method DropExpired(clock: int)
      requires Valid()
      modifies `cache, `contents
      ensures Valid() && contents == Collect(old(contents), clock)
    {
      cache := map h | h in cache && clock <= cache[h].deadline :: cache[h];
      contents := Collect(contents, clock);
      assert forall k :: old(Holds(k)) ==> Holds(k);
      assert forall k, k' :: old(Disjoint(k, k')) ==> Disjoint(k, k');
    }

    /** The list the cache has under the key, or a new one that the cache does not hold. */
    method GetKeyList(key: string, clock: int) returns (list: KeyList)
      requires Valid() && key != ""
      modifies `cache, `contents
      ensures Valid() && Fits(list, key) && contents == Collect(old(contents), clock)
      ensures list.ttl == Lookup(contents, key).ttl && list.entries == Lookup(contents, key).entries
      ensures KeyHash(domain, key) in cache <==> key in contents
      ensures if key in contents then list == ListOf(key) && list.Repr <= Repr else fresh(list.Repr)
      ensures key in contents ==> cache[KeyHash(domain, key)].deadline == contents[key].deadline
    {
      DropExpired(clock);
      assert Holds(key);
      if KeyHash(domain, key) in cache {
        list := cache[KeyHash(domain, key)].list;
        assert forall k | k != key :: Disjoint(key, k) && Disjoint(k, key) ==> Apart(list, k);
      } else {
        list := new KeyList();
        assert forall k :: Holds(k) ==> Apart(list, k);
      }
    }

    method StoreWithTTL(key: string, list: KeyList, ttl: int, clock: int)
      requires Fits(list, key)
      modifies `cache, `contents, `Repr
      ensures Valid() && Fits(list, key) && Repr == old(Repr) + list.Repr
      ensures KeyHash(domain, key) in cache && cache[KeyHash(domain, key)] == Slot(list, clock + ttl)
      ensures contents == old(contents)[key := Cached(list.ttl, list.entries, clock + ttl)]
    {
      cache := cache[KeyHash(domain, key) := Slot(list, clock + ttl)];
      contents := contents[key := Cached(list.ttl, list.entries, clock + ttl)];
      Repr := Repr + list.Repr;
      assert forall k | k != key :: old(Holds(k)) ==> Holds(k);
      assert Holds(key);
      assert forall k, k' | k != key && k' != key :: old(Disjoint(k, k')) ==> Disjoint(k, k');
      assert forall k | k != key :: old(Apart(list, k)) ==> Disjoint(k, key) && Disjoint(key, k) && Apart(list, k);
    }

    method Delete(key: string, ghost list: KeyList)
      requires Fits(list, key)
      modifies `cache, `contents
      ensures Valid() && contents == old(contents) - {key}
    {
      cache := cache - {KeyHash(domain, key)};
      contents := contents - {key};
      assert forall k | k != key :: old(Holds(k)) ==> Holds(k);
      assert Holds(key);
      assert forall k, k' | k != key && k' != key :: old(Disjoint(k, k')) ==> Disjoint(k, k');
      assert forall k | k != key :: Holds(k) ==> Disjoint(key, k) && Disjoint(k, key);
    }

    // ----- The operations -----

    /** After the list has been rewritten where it stands, the directory holds that. */
    ghost method Rewritten(list: KeyList, key: string)
      requires Fits(list, key) && KeyHash(domain, key) in cache && list == ListOf(key) && list.Repr <= Repr
      modifies `contents
      ensures Valid()
      ensures contents == old(contents)[key := Cached(list.ttl, list.entries, cache[KeyHash(domain, key)].deadline)]
    {
      contents := contents[key := Cached(list.ttl, list.entries, cache[KeyHash(domain, key)].deadline)];
      assert forall k | k != key :: old(Holds(k)) ==> Holds(k);
      assert Holds(key);
      assert forall k, k' | k != key && k' != key :: old(Disjoint(k, k')) ==> Disjoint(k, k');
      assert forall k | k != key :: old(Holds(k)) && old(Apart(list, k)) ==> Disjoint(k, key) && Disjoint(key, k);
    }

    method Purge(list: KeyList, key: string, limit: int)
      requires Fits(list, key)
      modifies list, list.Repr
      ensures Fits(list, key) && list.Repr == old(list.Repr) && list.ttl == old(list.ttl)
      ensures list.entries == Unexpired(old(list.entries), limit)
    {
      PurgeKeyList(list, limit);
      assert forall k | k != key :: old(Holds(k)) && old(Apart(list, k)) ==> Holds(k) && Apart(list, k);
      assert forall k, k' | k != key && k' != key :: old(Disjoint(k, k')) && Holds(k) && Holds(k') ==> Disjoint(k, k');
    }

    method SetTtl(list: KeyList, key: string, ttl: int)
      requires Fits(list, key)
      modifies list`ttl
      ensures Fits(list, key) && list.ttl == ttl
    {
      list.ttl := ttl;
      assert forall k | k != key :: old(Holds(k)) && old(Apart(list, k)) ==> Holds(k) && Apart(list, k);
      assert forall k, k' | k != key && k' != key :: old(Disjoint(k, k')) && Holds(k) && Holds(k') ==> Disjoint(k, k');
    }

    method InsertNew(list: KeyList, key: string, value: string, expireOn: int)
      requires Fits(list, key)
      modifies list, list.Repr
      ensures Fits(list, key) && old(list.Repr) <= list.Repr && fresh(list.Repr - old(list.Repr))
      ensures list.ttl == old(list.ttl) && list.entries == old(list.entries) + [Entry(value, expireOn)]
    {
      var entry := new ValueEntry(value, expireOn);
      Append(list, entry);
      assert forall k | k != key :: old(Holds(k)) && old(Apart(list, k)) ==> Holds(k) && Apart(list, k);
      assert forall k, k' | k != key && k' != key :: old(Disjoint(k, k')) && Holds(k) && Holds(k') ==> Disjoint(k, k');
    }

    method Renew(list: KeyList, key: string, pos: nat, expireOn: int)
      requires Fits(list, key) && pos < list.count
      modifies list, list.Repr
      ensures Fits(list, key) && list.Repr == old(list.Repr) && list.ttl == old(list.ttl)
      ensures list.entries == old(list.entries)[pos := Entry(old(list.entries)[pos].value, expireOn)]
    {
      SetExpiry(list, pos, expireOn);
      assert forall k | k != key :: old(Holds(k)) && old(Apart(list, k)) ==> Holds(k) && Apart(list, k);
      assert forall k, k' | k != key && k' != key :: old(Disjoint(k, k')) && Holds(k) && Holds(k') ==> Disjoint(k, k');
    }

    method Insert(list: KeyList, key: string, value: string, expireOn: int)
      requires Fits(list, key)
      modifies list, list.Repr
      ensures Fits(list, key) && old(list.Repr) <= list.Repr && fresh(list.Repr - old(list.Repr))
      ensures list.ttl == old(list.ttl) && list.entries == Put(old(list.entries), value, expireOn)
    {
      var found, pos := Contains(list, value);
      if !found {
        InsertNew(list, key, value, expireOn);
      } else {
        Renew(list, key, pos, expireOn);
      }
    }

    method InsertAndPurge(list: KeyList, key: string, value: string, expireOn: int, limit: int)
      requires Fits(list, key)
      modifies list, list.Repr
      ensures Fits(list, key) && old(list.Repr) <= list.Repr && fresh(list.Repr - old(list.Repr))
      ensures list.ttl == old(list.ttl) && list.entries == Unexpired(Put(old(list.entries), value, expireOn), limit)
    {
      Insert(list, key, value, expireOn);
      Purge(list, key, limit);
    }

    method Cut(list: KeyList, key: string, pos: nat)
      requires Fits(list, key) && pos < list.count
      modifies list, list.Repr
      ensures Fits(list, key) && list.Repr == old(list.Repr) && list.ttl == old(list.ttl)
      ensures list.entries == Without(old(list.entries), pos)
    {
      RemoveAt(list, pos);
      assert forall k | k != key :: old(Holds(k)) && old(Apart(list, k)) ==> Holds(k) && Apart(list, k);
      assert forall k, k' | k != key && k' != key :: old(Disjoint(k, k')) && Holds(k) && Holds(k') ==> Disjoint(k, k');
    }

    method CutAndStore(list: KeyList, key: string, pos: nat, clock: int)
      requires Fits(list, key) && pos < list.count && list.Repr <= Repr
      modifies `cache, `contents, `Repr, list, list.Repr
      ensures Fits(list, key) && Repr == old(Repr) && list.Repr == old(list.Repr) && list.ttl == old(list.ttl)
      ensures list.entries == Without(old(list.entries), pos)
      ensures KeyHash(domain, key) in cache && cache[KeyHash(domain, key)] == Slot(list, clock + list.ttl)
      ensures contents == old(contents)[key := Cached(list.ttl, list.entries, clock + list.ttl)]
    {
      Cut(list, key, pos);
      StoreWithTTL(key, list, list.ttl, clock);
    }

    method PurgeOrDelete(list: KeyList, key: string, limit: int)
      requires Fits(list, key) && (KeyHash(domain, key) in cache <==> key in contents)
      requires key in contents ==> list == ListOf(key) && list.Repr <= Repr
      requires key !in contents ==> list.entries == []
      modifies `cache, `contents, list, list.Repr
      ensures Valid()
      ensures var entries := Unexpired(old(list.entries), limit);
        contents == if entries == [] then old(contents) - {key}
                    else old(contents)[key := Cached(old(list.ttl), entries, old(cache[KeyHash(domain, key)].deadline))]
    {
      Purge(list, key, limit);
      if list.count == 0 {
        Delete(key, list);
      } else {
        Rewritten(list, key);
      }
    }

    /** All known values for the key, in a slice of its own; the list is purged after. */
    method List(key: string, clock: int) returns (ok: bool, result: array<string>)
      requires Valid()
      modifies Repr
      ensures Valid() && fresh(result) && Repr == old(Repr)
      ensures (contents, if ok then Listed(result[..]) else Invalid) == TimedStore.List(old(contents), key, clock)
    {
      ok := key != "";
      if ok {
        var list := GetKeyList(key, clock);
        result := Copied(list);
        Purge(list, key, Truncated(clock));
        if KeyHash(domain, key) in cache {
          Rewritten(list, key);
        }
      } else {
        result := new string[0];
      }
    }

    method AddAccepted(key: string, value: string, ttl: int, clock: int)
      requires Valid() && key != ""
      modifies Repr
      ensures Valid() && fresh(Repr - old(Repr))
      ensures var s, now := Collect(old(contents), clock), Truncated(clock);
        contents == s[key := Cached(ttl, Unexpired(Put(Lookup(s, key).entries, value, now + ttl), now), clock + ttl)]
    {
      var list := GetKeyList(key, clock);
      SetTtl(list, key, ttl);
      InsertAndPurge(list, key, value, Truncated(clock) + ttl, Truncated(clock));
      StoreWithTTL(key, list, list.ttl, clock);
    }

    method Add(key: string, value: string, ttl: int, clock: int) returns (ok: bool)
      requires Valid()
      modifies Repr
      ensures Valid() && fresh(Repr - old(Repr))
      ensures (contents, if ok then Done else Invalid) == TimedStore.Add(old(contents), key, value, ttl, clock)
    {
      ok := key != "" && value != "" && SECOND <= ttl;
      if ok {
        AddAccepted(key, value, ttl, clock);
      }
    }

    /** Takes the value out, and stores the list again, if it was there. */
    method TakeOut(key: string, value: string, clock: int) returns (list: KeyList)
      requires Valid() && key != ""
      modifies Repr
      ensures Fits(list, key) && Repr == old(Repr) && (list.Repr <= Repr || fresh(list.Repr))
      ensures KeyHash(domain, key) in cache <==> key in contents
      ensures key in contents ==>
                && list == ListOf(key) && list.Repr <= Repr
                && contents[key].deadline == cache[KeyHash(domain, key)].deadline
      ensures var s := Collect(old(contents), clock);
        var was := Lookup(s, key);
        var at := Find(was.entries, value);
        && list.ttl == was.ttl
        && if at < |was.entries| then
             && list.entries == Without(was.entries, at)
             && contents == s[key := Cached(was.ttl, list.entries, clock + was.ttl)]
           else
             list.entries == was.entries && contents == s
    {
      list := GetKeyList(key, clock);
      var found, pos := Contains(list, value);
      if pos != -1 {
        CutAndStore(list, key, pos, clock);
      }
    }

    method Remove(key: string, value: string, clock: int) returns (ok: bool)
      requires Valid()
      modifies Repr
      ensures Valid() && fresh(Repr - old(Repr))
      ensures (contents, if ok then Done else Invalid) == TimedStore.Remove(old(contents), key, value, clock)
    {
      ok := key != "";
      if ok {
        ghost var s := Collect(contents, clock);
        var list := TakeOut(key, value, clock);
        ghost var t := contents;
        PurgeOrDelete(list, key, Truncated(clock));
        assert t - {key} == s - {key};
        assert key in contents ==> t[key := contents[key]] == s[key := contents[key]];
      }
    }
  }
}
