/** The template cache: a dictionary bounded by a capacity, with a recency queue
    that decides which key is evicted when a new key arrives in a full cache. */
module LruCache {
  import opened Wrappers
  import opened Seqs

  /** What an LRUCache holds: its capacity, the key-to-value dictionary and the
      recency queue, least recently used key first. */
  datatype CacheState<K, V> = CacheState(capacity: nat, mapping: map<K, V>, queue: seq<K>)

  /** The cache invariant: the dictionary and the queue hold the same keys, the
      queue holds each once, and there are never more keys than the capacity. */
  predicate Consistent<K(==), V>(s: CacheState<K, V>) {
    && s.capacity >= 1
    && NoDuplicates(s.queue)
    && (forall k :: k in s.queue ==> k in s.mapping)
    && (forall k :: k in s.mapping ==> k in s.queue)
    && |s.queue| == |s.mapping|
    && |s.mapping| <= s.capacity
  }

  /** The queue after `key` is used: moved to the most recent end. */
  function Touched<K(==)>(queue: seq<K>, key: K): seq<K> {
    RemoveFirst(queue, key) + [key]
  }

  /** `__setitem__` adds a new key to a full cache only after evicting the queue front. */
  predicate Evicts<K(==), V>(s: CacheState<K, V>, key: K) {
    key !in s.mapping && |s.mapping| == s.capacity
  }

  /** The state after `cache[key] = value`. */
  function AfterSet<K(==), V>(s: CacheState<K, V>, key: K, value: V): CacheState<K, V>
    requires Consistent(s)
  {
    if key in s.mapping then
      CacheState(s.capacity, s.mapping[key := value], Touched(s.queue, key))
    else if |s.mapping| == s.capacity then
      CacheState(s.capacity, (s.mapping - {s.queue[0]})[key := value], s.queue[1..] + [key])
    else
      CacheState(s.capacity, s.mapping[key := value], s.queue + [key])
  }

  /** The state after a successful `cache[key]`: the key becomes the most recent. */
  function AfterGet<K(==), V>(s: CacheState<K, V>, key: K): CacheState<K, V> {
    CacheState(s.capacity, s.mapping, Touched(s.queue, key))
  }

  /** The state after a successful `del cache[key]`. */
  function AfterDelete<K(==), V>(s: CacheState<K, V>, key: K): CacheState<K, V> {
    CacheState(s.capacity, s.mapping - {key}, RemoveFirst(s.queue, key))
  }

  /** The entries most recently used first, as `items()` lists them. */
  function ItemsOf<K(==), V>(s: CacheState<K, V>): seq<(K, V)>
    requires Consistent(s)
  {
    var keys := Reverse(s.queue);
    seq(|keys|, i requires 0 <= i < |keys| => (keys[i], s.mapping[keys[i]]))
  }

  lemma MapRemoveSize<K, V>(m: map<K, V>, k: K)
    requires k in m
    ensures |m - {k}| == |m| - 1
  {
    assert (m - {k}).Keys == m.Keys - {k};
  }

  /** Setting a key keeps the invariant; in particular the size never exceeds the capacity. */
  lemma SetKeepsConsistent<K, V>(s: CacheState<K, V>, key: K, value: V)
    requires Consistent(s)
    ensures Consistent(AfterSet(s, key, value))
    ensures |AfterSet(s, key, value).mapping| <= s.capacity
  {
    if key in s.mapping {
      SetPresentKeeps(s, key, value);
    } else if |s.mapping| == s.capacity {
      SetEvictingKeeps(s, key, value);
    } else {
      AddFreshKeeps(s.capacity, s.mapping, s.queue, key, value);
    }
  }

  lemma SetPresentKeeps<K, V>(s: CacheState<K, V>, key: K, value: V)
    requires Consistent(s) && key in s.mapping
    ensures Consistent(CacheState(s.capacity, s.mapping[key := value], Touched(s.queue, key)))
  {
    RemoveFirstFacts(s.queue, key);
    AppendFreshNoDuplicates(RemoveFirst(s.queue, key), key);
  }

  lemma SetEvictingKeeps<K, V>(s: CacheState<K, V>, key: K, value: V)
    requires Consistent(s) && key !in s.mapping && |s.mapping| == s.capacity
    ensures Consistent(CacheState(s.capacity, (s.mapping - {s.queue[0]})[key := value], s.queue[1..] + [key]))
  {
    var oldest := s.queue[0];
    EvictFront(s.queue, s.mapping, oldest);
    AddFreshKeeps(s.capacity, s.mapping - {oldest}, s.queue[1..], key, value);
  }

  /** A new key added to a cache with room, at the most recent end. */
  lemma AddFreshKeeps<K, V>(capacity: nat, mapping: map<K, V>, queue: seq<K>, key: K, value: V)
    requires capacity >= 1 && NoDuplicates(queue) && key !in mapping
    requires (forall k :: k in queue <==> k in mapping) && |queue| == |mapping| < capacity
    ensures Consistent(CacheState(capacity, mapping[key := value], queue + [key]))
  {
    AppendFreshNoDuplicates(queue, key);
  }

  /** The queue without its front holds exactly the other keys, once each. */
  lemma EvictFront<K, V>(queue: seq<K>, mapping: map<K, V>, oldest: K)
    requires NoDuplicates(queue) && queue != [] && queue[0] == oldest
    requires (forall k :: k in queue <==> k in mapping) && |queue| == |mapping|
    ensures NoDuplicates(queue[1..])
    ensures (forall k :: k in queue[1..] <==> k in mapping - {oldest}) && |queue[1..]| == |mapping - {oldest}|
  {
    NoDuplicatesTail(queue);
    assert forall k :: k in queue[1..] ==> k in queue && k != oldest;
    assert forall k :: k in queue && k != queue[0] ==> k in queue[1..];
    MapRemoveSize(mapping, oldest);
  }

  /** Setting stores the value, makes the key the most recent, and leaves every other
      key's value alone; the only key that can disappear is the evicted queue front. */
  lemma SetStoresValue<K, V>(s: CacheState<K, V>, key: K, value: V)
    requires Consistent(s)
    ensures var t := AfterSet(s, key, value);
      && key in t.mapping && t.mapping[key] == value
      && t.queue != [] && t.queue[|t.queue| - 1] == key
      && (forall k :: k in s.mapping && k != key && !(Evicts(s, key) && k == s.queue[0]) ==>
            k in t.mapping && t.mapping[k] == s.mapping[k])
      && (forall k :: k in t.mapping && k != key ==> k in s.mapping && t.mapping[k] == s.mapping[k])
  {
  }

  /** Inserting a new key into a full cache evicts exactly the least recently used
      key, the queue front; otherwise no key is lost. */
  lemma SetEvictsLeastRecent<K, V>(s: CacheState<K, V>, key: K, value: V)
    requires Consistent(s)
    ensures Evicts(s, key) ==>
      s.queue != [] && AfterSet(s, key, value).mapping.Keys == s.mapping.Keys - {s.queue[0]} + {key}
    ensures !Evicts(s, key) ==> AfterSet(s, key, value).mapping.Keys == s.mapping.Keys + {key}
  {
    if Evicts(s, key) {
      assert s.queue != [];
    }
  }

  /** Setting keeps the relative order of all other keys (dropping the evicted front). */
  lemma SetKeepsOrder<K, V>(s: CacheState<K, V>, key: K, value: V)
    requires Consistent(s)
    ensures Without(AfterSet(s, key, value).queue, key) ==
      if Evicts(s, key) then s.queue[1..] else Without(s.queue, key)
  {
    var t := AfterSet(s, key, value);
    if key in s.mapping {
      RemoveFirstIsWithout(s.queue, key);
      WithoutAppendSelf(RemoveFirst(s.queue, key), key);
      RemoveFirstFacts(s.queue, key);
      WithoutAbsent(RemoveFirst(s.queue, key), key);
    } else if Evicts(s, key) {
      assert key !in s.queue[1..];
      WithoutAppendSelf(s.queue[1..], key);
      WithoutAbsent(s.queue[1..], key);
    } else {
      WithoutAppendSelf(s.queue, key);
    }
  }

  /** A successful lookup keeps the invariant and the dictionary, puts the key at the
      most recent end and keeps the relative order of all other keys. */
  lemma GetTouchesOnly<K, V>(s: CacheState<K, V>, key: K)
    requires Consistent(s) && key in s.mapping
    ensures Consistent(AfterGet(s, key))
    ensures AfterGet(s, key).mapping == s.mapping
    ensures AfterGet(s, key).queue[|s.queue| - 1] == key
    ensures Without(AfterGet(s, key).queue, key) == Without(s.queue, key)
  {
    RemoveFirstFacts(s.queue, key);
    AppendFreshNoDuplicates(RemoveFirst(s.queue, key), key);
    RemoveFirstIsWithout(s.queue, key);
    WithoutAppendSelf(RemoveFirst(s.queue, key), key);
    WithoutAbsent(RemoveFirst(s.queue, key), key);
  }

  /** Deleting a present key removes it from both the dictionary and the queue and
      leaves the other keys in their order. */
  lemma DeleteRemovesKey<K, V>(s: CacheState<K, V>, key: K)
    requires Consistent(s) && key in s.mapping
    ensures Consistent(AfterDelete(s, key))
    ensures key !in AfterDelete(s, key).mapping && key !in AfterDelete(s, key).queue
    ensures AfterDelete(s, key).queue == Without(s.queue, key)
    ensures |AfterDelete(s, key).mapping| == |s.mapping| - 1
  {
    RemoveFirstFacts(s.queue, key);
    RemoveFirstIsWithout(s.queue, key);
    MapRemoveSize(s.mapping, key);
  }

  /** `items()` lists every entry exactly once, most recently used first. */
  lemma ItemsAreEntries<K, V>(s: CacheState<K, V>)
    requires Consistent(s)
    ensures |ItemsOf(s)| == |s.mapping|
    ensures forall i :: 0 <= i < |ItemsOf(s)| ==>
      ItemsOf(s)[i].0 == s.queue[|s.queue| - 1 - i] && ItemsOf(s)[i].1 == s.mapping[ItemsOf(s)[i].0]
    ensures forall k :: k in s.mapping ==> exists i :: 0 <= i < |ItemsOf(s)| && ItemsOf(s)[i] == (k, s.mapping[k])
  {
    var items := ItemsOf(s);
    forall k | k in s.mapping
      ensures exists i :: 0 <= i < |items| && items[i] == (k, s.mapping[k])
    {
      var j :| 0 <= j < |s.queue| && s.queue[j] == k;
      assert items[|s.queue| - 1 - j] == (k, s.mapping[k]);
    }
  }

  /** The two deques of an LRUCache as the source holds them. `_postinit` binds
      `_append`, `_popleft` and `_remove` to the deque that `_queue` named at that
      moment; reads of `_queue` (`__getitem__`'s last-key test, `items()`,
      `keys()`) see whatever `_queue` names now. After the constructor both are
      the same deque (`Aliased`); after `copy()` they are two (`Detached`). */
  datatype Deques<K> = Aliased(queue: seq<K>) | Detached(queue: seq<K>, bound: seq<K>)

  /** The deque the bound methods change. */
  function BoundDeque<K>(d: Deques<K>): seq<K> {
    if d.Aliased? then d.queue else d.bound
  }

  /** The deques after the bound methods leave `b` in the deque they act on. */
  function WithBound<K>(d: Deques<K>, b: seq<K>): Deques<K> {
    if d.Aliased? then Aliased(b) else Detached(d.queue, b)
  }

  /** An LRUCache as the source code holds it, with both deques. */
  datatype SourceCache<K, V> = SourceCache(capacity: nat, mapping: map<K, V>, deques: Deques<K>)

  /** A cache built by the constructor: one deque, named by `_queue` and changed by
      the bound methods alike. */
  function Attached<K, V>(s: CacheState<K, V>): SourceCache<K, V> {
    SourceCache(s.capacity, s.mapping, Aliased(s.queue))
  }

  /** `copy()` as written: the new instance's bound methods keep acting on the
      empty deque its constructor made, while `_queue` names a copy of the queue. */
  function CopyAsWritten<K, V>(c: SourceCache<K, V>): SourceCache<K, V> {
    SourceCache(c.capacity, c.mapping, Detached(c.deques.queue, []))
  }

  /** `__setitem__` as written, on both deques. `_remove` of a key missing from the
      bound deque raises ValueError and `_popleft` of an empty one IndexError;
      neither is caught there. (The model drops the partial changes made before
      the exception.) */
  function SetAsWritten<K(==), V>(c: SourceCache<K, V>, key: K, value: V): Result<SourceCache<K, V>> {
    var b := BoundDeque(c.deques);
    if key in c.mapping then
      if key in b then Ok(SourceCache(c.capacity, c.mapping[key := value], WithBound(c.deques, RemoveFirst(b, key) + [key])))
      else Raised(ValueError)
    else if |c.mapping| == c.capacity then
      if b == [] then Raised(IndexError)
      else if b[0] !in c.mapping then Raised(KeyError)
      else Ok(SourceCache(c.capacity, (c.mapping - {b[0]})[key := value], WithBound(c.deques, b[1..] + [key])))
    else
      Ok(SourceCache(c.capacity, c.mapping[key := value], WithBound(c.deques, b + [key])))
  }

  /** `__getitem__` as written: the last-key test reads `_queue`, the move acts
      on the bound deque, and a ValueError from `_remove` is swallowed. */
  function GetAsWritten<K(==), V>(c: SourceCache<K, V>, key: K): Result<(V, SourceCache<K, V>)> {
    var b := BoundDeque(c.deques);
    if key !in c.mapping then Raised(KeyError)
    else if c.deques.queue == [] then Raised(IndexError)
    else if c.deques.queue[|c.deques.queue| - 1] == key then Ok((c.mapping[key], c))
    else
      var removed := if key in b then RemoveFirst(b, key) else b;
      Ok((c.mapping[key], SourceCache(c.capacity, c.mapping, WithBound(c.deques, removed + [key]))))
  }

  /** On a cache built by the constructor, `__setitem__` as written is the set
      transition the class implements, and it never raises. */
  lemma AttachedSetAgrees<K, V>(s: CacheState<K, V>, key: K, value: V)
    requires Consistent(s)
    ensures SetAsWritten(Attached(s), key, value) == Ok(Attached(AfterSet(s, key, value)))
  {
    if key !in s.mapping && |s.mapping| == s.capacity {
      assert s.queue[0] in s.queue;
    }
  }

  /** On a cache built by the constructor, a lookup as written is the get
      transition the class implements. */
  lemma AttachedGetAgrees<K, V>(s: CacheState<K, V>, key: K)
    requires Consistent(s) && key in s.mapping
    ensures GetAsWritten(Attached(s), key) == Ok((s.mapping[key], Attached(AfterGet(s, key))))
  {
    assert s.queue != [];
    if s.queue[|s.queue| - 1] == key {
      RemoveFirstOfLast(s.queue, key);
    }
  }

  /** The copy keeps the entries, but setting a new key in a full copy raises
      IndexError: `_popleft` acts on the copy's empty original deque. */
  lemma CopyThenSetRaises<K, V>(a: K, b: K, v: V, w: V)
    requires a != b
    ensures CopyAsWritten(Attached(CacheState(1, map[a := v], [a]))).mapping == map[a := v]
    ensures SetAsWritten(CopyAsWritten(Attached(CacheState(1, map[a := v], [a]))), b, w) == Raised(IndexError)
    ensures AfterSet(CacheState(1, map[a := v], [a]), b, w) == CacheState(1, map[b := w], [b])
  {
    assert map[a := v] - {a} == map[];
  }

  /** Overwriting a key of a copy raises ValueError: `_remove` looks for it in the
      copy's empty original deque. */
  lemma CopyThenOverwriteRaises<K, V>(a: K, v: V, w: V)
    ensures SetAsWritten(CopyAsWritten(Attached(CacheState(1, map[a := v], [a]))), a, w) == Raised(ValueError)
  {
  }

  /** A lookup on a copy returns the value but leaves `_queue`, which `items()`
      and `keys()` read, in its old order; the corrected cache moves the key. */
  lemma CopyThenGetKeepsOrder<K, V>(a: K, b: K, v: V, w: V)
    requires a != b
    ensures var c := CopyAsWritten(Attached(CacheState(2, map[a := v, b := w], [a, b])));
      && GetAsWritten(c, a) == Ok((v, SourceCache(2, map[a := v, b := w], Detached([a, b], [a]))))
      && AfterGet(CacheState(2, map[a := v, b := w], [a, b]), a).queue == [b, a]
  {
    var c := CopyAsWritten(Attached(CacheState(2, map[a := v, b := w], [a, b])));
    assert c.deques.queue[|c.deques.queue| - 1] == b;
    assert BoundDeque(c.deques) == [] && [] + [a] == [a];
    assert RemoveFirst([a, b], a) == [b];
  }

  /** A call that either returns or waits forever to acquire `_wlock`. */
  datatype Call<+T> = Returns(value: T) | Blocks

  /** `__getitem__` behind its `_wlock.acquire()` (line 500). `_wlock` is a
      `threading.Lock`, which is not re-entrant: a caller that already holds it
      waits forever. */
  function LockedGet<K(==), V>(held: bool, c: SourceCache<K, V>, key: K): Call<Result<(V, SourceCache<K, V>)>> {
    if held then Blocks else Returns(GetAsWritten(c, key))
  }

  /** `__setitem__` behind its `_wlock.acquire()` (line 520). */
  function LockedSet<K(==), V>(held: bool, c: SourceCache<K, V>, key: K, value: V): Call<Result<SourceCache<K, V>>> {
    if held then Blocks else Returns(SetAsWritten(c, key, value))
  }

  /** `setdefault` as written: it acquires `_wlock` and, still holding it, calls
      `self[key]` and, on KeyError, `self[key] = default`. */
  function SetDefaultAsWritten<K(==), V>(held: bool, c: SourceCache<K, V>, key: K, default: V): Call<Result<(V, SourceCache<K, V>)>> {
    if held then Blocks
    else match LockedGet(true, c, key)
      case Blocks => Blocks
      case Returns(Ok(found)) => Returns(Ok(found))
      case Returns(Raised(KeyError)) =>
        (match LockedSet(true, c, key, default)
         case Blocks => Blocks
         case Returns(Ok(after)) => Returns(Ok((default, after)))
         case Returns(Raised(e)) => Returns(Raised(e)))
      case Returns(Raised(e)) => Returns(Raised(e))
  }

  /** `setdefault` as written never returns: with the lock free it takes it and
      then waits on it inside `__getitem__`, even in a single thread. */
  lemma SetDefaultBlocks<K, V>(held: bool, c: SourceCache<K, V>, key: K, default: V)
    ensures SetDefaultAsWritten(held, c, key, default) == Blocks
  {
  }

  /** A cache with the methods of jinja2's LRUCache (the lock left out). */
  class LRUCache<K(==), V> {
    const capacity: nat
    var mapping: map<K, V>
    var queue: seq<K>

    function Model(): CacheState<K, V>
      reads this
    {
      CacheState(capacity, mapping, queue)
    }

    predicate Valid()
      reads this
    {
      Consistent(Model())
    }

    constructor (capacity: nat)
      requires capacity >= 1
      ensures Valid()
      ensures Model() == CacheState(capacity, map[], [])
    {
      this.capacity := capacity;
      mapping := map[];
      queue := [];
    }

    /** `copy()` as evidently intended: a new cache with the same capacity, entries
        and order, whose methods act on its own queue (so `AttachedSetAgrees` and
        `AttachedGetAgrees` hold of it); `CopyAsWritten` is the source's copy. */
    method Copy() returns (r: LRUCache<K, V>)
      requires Valid()
      ensures fresh(r) && r.Valid() && r.Model() == Model()
    {
      r := new LRUCache(capacity);
      r.mapping := mapping;
      r.queue := queue;
    }

    /** `__contains__`: whether the key is cached; the queue agrees with the dictionary. */
    function Contains(key: K): (r: bool)
      reads this
      requires Valid()
      ensures r <==> key in queue
    {
      key in mapping
    }

    /** `__len__`: the number of cached keys, never more than the capacity. */
    function Len(): (r: nat)
      reads this
      requires Valid()
      ensures r == |queue| && r <= capacity
    {
      |mapping|
    }

    /** `__getitem__`: the stored value, or KeyError with nothing changed. */
    method GetItem(key: K) returns (r: Result<V>)
      requires Valid()
      modifies this
      ensures Valid()
      ensures r == if key in old(mapping) then Ok(old(mapping)[key]) else Raised(KeyError)
      ensures Model() == if key in old(mapping) then AfterGet(old(Model()), key) else old(Model())
    {
      if key !in mapping {
        return Raised(KeyError);
      }
      var rv := mapping[key];
      if queue[|queue| - 1] != key {
        // the key is in the queue, so deque.remove raises no ValueError here
        queue := RemoveFirst(queue, key);
        queue := queue + [key];
      } else {
        RemoveFirstOfLast(queue, key);
      }
      GetTouchesOnly(old(Model()), key);
      return Ok(rv);
    }

    /** `get(key, default)`: the stored value (touching the key), or the default. */
    method Get(key: K, default: V) returns (r: V)
      requires Valid()
      modifies this
      ensures Valid()
      ensures r == if key in old(mapping) then old(mapping)[key] else default
      ensures Model() == if key in old(mapping) then AfterGet(old(Model()), key) else old(Model())
    {
      var found := GetItem(key);
      r := if found.Ok? then found.value else default;
    }

    /** `__setitem__`: stores the value, making room by evicting the queue front. */
    method SetItem(key: K, value: V)
      requires Valid()
      modifies this
      ensures Valid()
      ensures Model() == AfterSet(old(Model()), key, value)
    {
      SetKeepsConsistent(Model(), key, value);
      if key in mapping {
        queue := RemoveFirst(queue, key);
      } else if |mapping| == capacity {
        var oldest := queue[0];
        queue := queue[1..];
        mapping := mapping - {oldest};
      }
      queue := queue + [key];
      mapping := mapping[key := value];
    }

    /** `setdefault(key, default)` as documented: a present key keeps (and returns)
        its value; an absent key is set to the default exactly as `__setitem__`
        does. `SetDefaultAsWritten` is the source's, which never returns. */
    method SetDefault(key: K, default: V) returns (r: V)
      requires Valid()
      modifies this
      ensures Valid()
      ensures r == if key in old(mapping) then old(mapping)[key] else default
      ensures Model() == if key in old(mapping) then AfterGet(old(Model()), key)
                         else AfterSet(old(Model()), key, default)
    {
      var found := GetItem(key);
      if found.Ok? {
        r := found.value;
      } else {
        SetItem(key, default);
        r := default;
      }
    }

    /** `clear()`. */
    method Clear()
      requires Valid()
      modifies this
      ensures Valid()
      ensures Model() == CacheState(capacity, map[], [])
    {
      mapping := map[];
      queue := [];
    }

    /** `__delitem__`: removes the key from dictionary and queue, or raises KeyError
        and changes nothing. */
    method DelItem(key: K) returns (r: Outcome)
      requires Valid()
      modifies this
      ensures Valid()
      ensures r == if key in old(mapping) then Done else Failed(KeyError)
      ensures Model() == if key in old(mapping) then AfterDelete(old(Model()), key) else old(Model())
    {
      if key !in mapping {
        return Failed(KeyError);
      }
      DeleteRemovesKey(Model(), key);
      mapping := mapping - {key};
      queue := RemoveFirst(queue, key);
      return Done;
    }

    /** `items()` (and `iteritems()`): the entries, most recently used first. */
    function Items(): (r: seq<(K, V)>)
      reads this
      requires Valid()
      ensures |r| == |mapping|
      ensures forall i :: 0 <= i < |r| ==> r[i].0 == queue[|queue| - 1 - i] && r[i].1 == mapping[r[i].0]
      ensures forall k :: k in mapping ==> exists i :: 0 <= i < |r| && r[i] == (k, mapping[k])
    {
      ItemsAreEntries(Model());
      ItemsOf(Model())
    }

    /** `values()`: the values in the order of `items()`. */
    function Values(): (r: seq<V>)
      reads this
      requires Valid()
      ensures |r| == |mapping|
      ensures forall i :: 0 <= i < |r| ==> r[i] == mapping[queue[|queue| - 1 - i]]
    {
      var items := Items();
      seq(|items|, i requires 0 <= i < |items| => items[i].1)
    }

    /** `keys()`, `__iter__` and `iterkeys()`: every key once, most recently used first. */
    function Keys(): (r: seq<K>)
      reads this
      requires Valid()
      ensures |r| == |mapping| && NoDuplicates(r)
      ensures forall k :: k in r ==> k in mapping
      ensures forall k :: k in mapping ==> k in r
      ensures forall i :: 0 <= i < |r| ==> r[i] == queue[|queue| - 1 - i]
    {
      var r := Reverse(queue);
      assert |r| == |queue|;
      assert forall i, j :: 0 <= i < j < |r| ==> r[i] == queue[|queue| - 1 - i] && r[j] == queue[|queue| - 1 - j];
      assert forall j :: 0 <= j < |queue| ==> r[|queue| - 1 - j] == queue[j];
      r
    }

    /** `__reversed__`: every key once, oldest first: the reverse of `keys()`. */
    function Reversed(): (r: seq<K>)
      reads this
      requires Valid()
      ensures r == Reverse(Keys())
      ensures NoDuplicates(r)
      ensures forall k :: k in mapping ==> k in r
    {
      var keys := Keys();
      assert Reverse(keys) == queue;
      queue
    }
  }
}
