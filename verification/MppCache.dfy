/** The decoded-image cache: least recently used eviction, references, deferred invalidation. */
module MppCache {
  import opened Prelude

  /** An image source: a file by its path, anything else by its address. */
  datatype Key = FileKey(path: string) | AddressKey(address: nat)

  datatype Args = Args(premultiply: bool, useIndexed: bool, strideAlign: bool)

  /** What a decode left behind: whether post-processing made a heap copy, whether the stride is the
      aligned one, and the bytes the entry costs. */
  datatype Info = Info(key: Key, args: Args, heapCopy: bool, strideIsAligned: bool, cost: nat)

  datatype Item = Item(id: nat, info: Info, refs: nat, invalidated: bool)

  /** Cached items, oldest first, and the open sessions that are not cached; the entry cap is configured. */
  datatype Store = Store(
    cap: nat, items: seq<Item>, loose: set<nat>, bytes: nat, entries: nat, limit: u32,
    hits: nat, misses: nat, evictions: nat, open: nat)

  function Created(cap: nat, limit: u32): Store
  {
    Store(cap, [], {}, 0, 0, limit, 0, 0, 0, 0)
  }

  // ----- the operations -----

  function Without(items: seq<Item>, i: nat): seq<Item>
    requires i < |items|
  {
    items[..i] + items[i + 1..]
  }

  function Remove(s: Store, i: nat): Store
    requires i < |s.items|
  {
    s.(items := Without(s.items, i), bytes := Max(s.bytes - s.items[i].info.cost, 0), entries := Max(s.entries - 1, 0))
  }

  function Unreferenced(): Item -> bool
  {
    (x: Item) => x.refs == 0
  }

  /** Evict the oldest unreferenced item; the second part says whether there was one. */
  function EvictOne(s: Store): (Store, bool)
  {
    var i := Find(s.items, Unreferenced(), 0);
    if i == |s.items| then (s, false) else (Remove(s, i).(evictions := s.evictions + 1), true)
  }

  /** Mark every item from i on with a key (or all) as invalid, and remove those nobody reads. */
  function DropFrom(s: Store, key: Option<Key>, i: nat): Store
    decreases |s.items| - i
  {
    if i >= |s.items| then s
    else
      var x := s.items[i];
      if key.Some? && key.value != x.info.key then DropFrom(s, key, i + 1)
      else if x.refs == 0 then DropFrom(Remove(s, i), key, i)
      else DropFrom(s.(items := s.items[i := x.(invalidated := true)]), key, i + 1)
  }

  function Drop(s: Store, key: Option<Key>): Store
  {
    DropFrom(s, key, 0)
  }

  /** Evict until the bytes fit or everything left is referenced. */
  function Trim(s: Store, bytes: nat): Store
    decreases |s.items|
  {
    if s.bytes <= bytes then s
    else
      var (t, more) := EvictOne(s);
      if more then Trim(t, bytes) else t
  }

  function SetLimit(s: Store, bytes: u32): Store
  {
    var t := s.(limit := bytes);
    Trim(if bytes == 0 then Drop(t, None) else t, bytes)
  }

  predicate Compatible(x: Info, args: Args)
  {
    && x.args.premultiply == args.premultiply && x.args.useIndexed == args.useIndexed
    && (x.args.strideAlign == args.strideAlign || (!x.heapCopy && (!args.strideAlign || x.strideIsAligned)))
  }

  predicate Serves(x: Item, key: Key, args: Args)
  {
    !x.invalidated && x.info.key == key && Compatible(x.info, args)
  }

  /** The newest item before n that serves, counted from one; zero if there is none. */
  function FindNewest(items: seq<Item>, key: Key, args: Args, n: nat): (r: nat)
    requires n <= |items|
    ensures r <= n && (r > 0 ==> Serves(items[r - 1], key, args)) && forall k :: r <= k < n ==> !Serves(items[k], key, args)
  {
    if n == 0 || Serves(items[n - 1], key, args) then n else FindNewest(items, key, args, n - 1)
  }

  /** A lookup: a hit takes a reference and makes the item the newest. */
  function Acquire(s: Store, key: Key, args: Args, noCache: bool): (Store, Option<nat>)
  {
    if noCache || s.limit == 0 then (s, None)
    else
      var r := FindNewest(s.items, key, args, |s.items|);
      if r == 0 then (s.(misses := s.misses + 1), None)
      else
        var x := s.items[r - 1].(refs := s.items[r - 1].refs + 1);
        (s.(items := Without(s.items, r - 1) + [x], hits := s.hits + 1, open := s.open + 1), Some(x.id))
  }

  /** Evict until a new item fits; the second part says whether it does. */
  function MakeRoom(s: Store, cost: nat): (Store, bool)
    decreases |s.items|
  {
    if cost + s.bytes <= s.limit && s.entries < s.cap then (s, true)
    else
      var (t, more) := EvictOne(s);
      if more then MakeRoom(t, cost) else (t, false)
  }

  /** Offer an open session to the cache. `keyed` says that the key could be copied. */
  function Insert(s: Store, id: nat, info: Info, noCache: bool, keyed: bool): Store
  {
    if noCache || s.limit == 0 || info.cost > s.limit then s
    else
      var (t, room) := MakeRoom(s, info.cost);
      if !room || !keyed then t
      else
        t.(items := t.items + [Item(id, info, 1, false)], loose := t.loose - {id},
           entries := t.entries + 1, bytes := t.bytes + info.cost)
  }

  /** One more open session that is not cached. */
  function WithLoose(s: Store, id: nat): Store
  {
    s.(loose := s.loose + {id}, open := s.open + 1)
  }

  /** Open an image: from the cache, else decode (nothing on failure) and offer it to the cache. */
  function Open(s: Store, id: nat, key: Key, args: Args, noCache: bool, decoded: Option<Info>, keyed: bool): (Store, Option<nat>)
  {
    var (t, hit) := Acquire(s, key, args, noCache);
    if hit.Some? then (t, hit)
    else if decoded.None? then (t, None)
    else
      var info := decoded.value.(key := key, args := args);
      (Insert(WithLoose(t, id), id, info, noCache, keyed), Some(id))
  }

  function Close(s: Store, id: nat): Store
  {
    if id in s.loose then s.(loose := s.loose - {id}, open := Max(s.open - 1, 0))
    else
      var i := Find(s.items, (x: Item) => x.id == id, 0);
      if i == |s.items| || s.items[i].refs == 0 then s
      else
        var x := s.items[i].(refs := s.items[i].refs - 1);
        var t := s.(items := s.items[i := x], open := Max(s.open - 1, 0));
        if x.refs == 0 && (x.invalidated || t.bytes > t.limit) then Remove(t, i) else t
  }

  // ----- the invariant -----

  function Cost(items: seq<Item>): nat
  {
    if items == [] then 0 else Cost(items[..|items| - 1]) + items[|items| - 1].info.cost
  }

  function Refs(items: seq<Item>): nat
  {
    if items == [] then 0 else Refs(items[..|items| - 1]) + items[|items| - 1].refs
  }

  predicate Distinct(items: seq<Item>)
  {
    forall i, k :: 0 <= i < k < |items| ==> items[i].id != items[k].id
  }

  /** No two valid items are for the same source and arguments. */
  predicate OneEach(items: seq<Item>)
  {
    forall i, k :: 0 <= i < k < |items| && !items[i].invalidated && !items[k].invalidated ==>
      items[i].info.key != items[k].info.key || items[i].info.args != items[k].info.args
  }

  /** Items that were invalidated are still read, and over the limit everything is. */
  predicate Kept(items: seq<Item>, bytes: nat, limit: u32)
  {
    forall i :: 0 <= i < |items| ==>
      && (items[i].invalidated || bytes > limit ==> items[i].refs > 0)
      && (limit == 0 ==> items[i].invalidated)
  }

  /** The account of bytes, entries and references, and the identity of items. */
  predicate Account(s: Store)
  {
    && s.entries == |s.items| <= s.cap && s.bytes == Cost(s.items)
    && s.open == Refs(s.items) + |s.loose|
    && Distinct(s.items) && (forall i :: 0 <= i < |s.items| ==> s.items[i].id !in s.loose)
    && OneEach(s.items)
  }

  predicate Inv(s: Store)
  {
    Account(s) && Kept(s.items, s.bytes, s.limit)
  }

  // ----- sums -----

  lemma {:induction false} CostWithout(items: seq<Item>, i: nat)
    requires i < |items|
    ensures Cost(Without(items, i)) == Cost(items) - items[i].info.cost
    ensures Refs(Without(items, i)) == Refs(items) - items[i].refs
  {
    var n := |items| - 1;
    if i == n {
      assert Without(items, i) == items[..n];
    } else {
      assert Without(items, i)[..n - 1] == Without(items[..n], i);
      CostWithout(items[..n], i);
    }
  }

  lemma {:induction false} RefsUpdate(items: seq<Item>, i: nat, x: Item)
    requires i < |items| && x.info == items[i].info
    ensures Cost(items[i := x]) == Cost(items) && Refs(items[i := x]) == Refs(items) - items[i].refs + x.refs
  {
    var n := |items| - 1;
    if i == n {
      assert items[i := x][..n] == items[..n];
    } else {
      assert items[i := x][..n] == items[..n][i := x];
      RefsUpdate(items[..n], i, x);
    }
  }

  lemma SumsAppend(items: seq<Item>, x: Item)
    ensures Cost(items + [x]) == Cost(items) + x.info.cost && Refs(items + [x]) == Refs(items) + x.refs
  {
    assert (items + [x])[..|items|] == items;
  }

  lemma {:induction false} RefsCover(items: seq<Item>, i: nat)
    requires i < |items|
    ensures items[i].refs <= Refs(items) && items[i].info.cost <= Cost(items)
  {
    if i < |items| - 1 { RefsCover(items[..|items| - 1], i); }
  }

  lemma AccountCovers(s: Store, i: nat)
    requires Account(s) && i < |s.items|
    ensures s.items[i].info.cost <= s.bytes && 0 < s.entries == |s.items|
  {
    RefsCover(s.items, i);
  }

  // ----- what every operation keeps -----

  lemma WithoutAt(items: seq<Item>, i: nat)
    requires i < |items|
    ensures |Without(items, i)| == |items| - 1
    ensures forall k :: 0 <= k < |items| - 1 ==> Without(items, i)[k] == items[if k < i then k else k + 1]
  {
  }

  /** Removing an item nobody reads keeps the account and loses nothing else. */
  lemma RemoveKeeps(s: Store, i: nat)
    requires Account(s) && i < |s.items| && s.items[i].refs == 0
    ensures Account(Remove(s, i)) && Remove(s, i).bytes <= s.bytes
  {
    hide Without;
    WithoutAt(s.items, i);
    CostWithout(s.items, i);
    RefsCover(s.items, i);
  }

  /** Every item that somebody reads is still there afterwards, unchanged but possibly invalid. */
  predicate Survives(x: Item, items: seq<Item>)
  {
    exists k :: 0 <= k < |items| && items[k].id == x.id && items[k].info == x.info && items[k].refs == x.refs
                && (x.invalidated ==> items[k].invalidated)
  }

  predicate AllSurvive(items: seq<Item>, to: seq<Item>)
  {
    forall i :: 0 <= i < |items| && items[i].refs > 0 ==> Survives(items[i], to)
  }

  lemma SurvivesStep(x: Item, items: seq<Item>, to: seq<Item>)
    requires Survives(x, items) && AllSurvive(items, to) && x.refs > 0
    ensures Survives(x, to)
  {
    var k :| 0 <= k < |items| && items[k].id == x.id && items[k].info == x.info && items[k].refs == x.refs
             && (x.invalidated ==> items[k].invalidated);
    assert Survives(items[k], to);
  }

  lemma SurviveTrans(a: seq<Item>, b: seq<Item>, c: seq<Item>)
    requires AllSurvive(a, b) && AllSurvive(b, c)
    ensures AllSurvive(a, c)
  {
    hide Survives;
    forall i | 0 <= i < |a| && a[i].refs > 0 ensures Survives(a[i], c) { SurvivesStep(a[i], b, c); }
  }

  lemma SurviveSelf(a: seq<Item>)
    ensures AllSurvive(a, a)
  {
    forall i | 0 <= i < |a| ensures Survives(a[i], a) { assert a[i].id == a[i].id; }
  }

  lemma RemoveSurvivors(items: seq<Item>, i: nat)
    requires i < |items| && items[i].refs == 0
    ensures AllSurvive(items, Without(items, i))
  {
    WithoutAt(items, i);
    var to := Without(items, i);
    hide Without;
    forall k | 0 <= k < |items| && items[k].refs > 0 ensures Survives(items[k], to) {
      var l := if k < i then k else k - 1;
      assert to[l] == items[k];
    }
  }

  lemma EvictKeeps(s: Store)
    requires Account(s)
    ensures var (t, more) := EvictOne(s);
            && Account(t) && AllSurvive(s.items, t.items) && t.bytes <= s.bytes
            && t.limit == s.limit && t.cap == s.cap && t.loose == s.loose && t.open == s.open && t.hits == s.hits && t.misses == s.misses
            && (more ==> |t.items| == |s.items| - 1 && t.evictions == s.evictions + 1)
            && (!more ==> t == s && forall i :: 0 <= i < |s.items| ==> s.items[i].refs > 0)
            && (forall i :: 0 <= i < |t.items| ==> t.items[i] in s.items)
  {
    hide Account, AllSurvive;
    var i := Find(s.items, Unreferenced(), 0);
    SurviveSelf(s.items);
    if i < |s.items| {
      RemoveKeeps(s, i);
      RemoveSurvivors(s.items, i);
      WithoutAt(s.items, i);
      EvictionsFree(Remove(s, i));
    }
  }

  lemma EvictionsFree(s: Store)
    ensures Account(s.(evictions := s.evictions + 1)) == Account(s)
  {
  }

  /** Trimming ends within the limit, or with every item read. */
  lemma {:induction false} TrimKeeps(s: Store, bytes: nat)
    requires Account(s)
    ensures var t := Trim(s, bytes);
            && Account(t) && AllSurvive(s.items, t.items) && t.limit == s.limit && t.cap == s.cap && t.loose == s.loose
            && (t.bytes <= bytes || forall i :: 0 <= i < |t.items| ==> t.items[i].refs > 0)
            && (forall i :: 0 <= i < |t.items| ==> t.items[i] in s.items)
    decreases |s.items|
  {
    hide Account, AllSurvive, EvictOne;
    SurviveSelf(s.items);
    if s.bytes > bytes {
      EvictKeeps(s);
      var (t, more) := EvictOne(s);
      if more {
        TrimKeeps(t, bytes);
        SurviveTrans(s.items, t.items, Trim(t, bytes).items);
      }
    }
  }

  /** Dropping leaves only invalid items of the dropped sources, all of them still read. */
  lemma {:induction false} DropKeeps(s: Store, key: Option<Key>, i: nat)
    requires Account(s) && i <= |s.items|
    requires forall k :: 0 <= k < |s.items| && s.items[k].invalidated ==> s.items[k].refs > 0
    requires forall k :: 0 <= k < i ==> Dropped(s.items[k], key)
    ensures var t := DropFrom(s, key, i);
            && Account(t) && AllSurvive(s.items, t.items) && t.limit == s.limit && t.cap == s.cap && t.loose == s.loose && t.bytes <= s.bytes
            && (forall k :: 0 <= k < |t.items| && t.items[k].invalidated ==> t.items[k].refs > 0)
            && (forall k :: 0 <= k < |t.items| ==> Dropped(t.items[k], key))
    decreases |s.items| - i
  {
    hide Account, AllSurvive, Remove, Dropped;
    SurviveSelf(s.items);
    if i < |s.items| {
      var x := s.items[i];
      DroppedIs(x, key);
      if key.Some? && key.value != x.info.key {
        DropKeeps(s, key, i + 1);
      } else if x.refs == 0 {
        DropRemove(s, key, i);
      } else {
        DropMark(s, key, i);
      }
    }
  }

  predicate Dropped(x: Item, key: Option<Key>)
  {
    (key.None? || key.value == x.info.key) ==> x.invalidated
  }

  lemma DroppedIs(x: Item, key: Option<Key>)
    ensures Dropped(x, key) <==> ((key.None? || key.value == x.info.key) ==> x.invalidated)
  {
  }

  lemma DropRemove(s: Store, key: Option<Key>, i: nat)
    requires Account(s) && i < |s.items| && s.items[i].refs == 0
    requires forall k :: 0 <= k < |s.items| && s.items[k].invalidated ==> s.items[k].refs > 0
    requires forall k :: 0 <= k < i ==> Dropped(s.items[k], key)
    ensures var t := DropFrom(Remove(s, i), key, i);
            && Account(t) && AllSurvive(s.items, t.items) && t.limit == s.limit && t.cap == s.cap && t.loose == s.loose && t.bytes <= s.bytes
            && (forall k :: 0 <= k < |t.items| && t.items[k].invalidated ==> t.items[k].refs > 0)
            && (forall k :: 0 <= k < |t.items| ==> Dropped(t.items[k], key))
    decreases |s.items| - i, 0
  {
    hide Account, AllSurvive, DropFrom, Without;
    RemoveKeeps(s, i);
    RemoveSurvivors(s.items, i);
    WithoutAt(s.items, i);
    DropKeeps(Remove(s, i), key, i);
    SurviveTrans(s.items, Remove(s, i).items, DropFrom(Remove(s, i), key, i).items);
  }

  lemma DropMark(s: Store, key: Option<Key>, i: nat)
    requires Account(s) && i < |s.items| && s.items[i].refs > 0
    requires forall k :: 0 <= k < |s.items| && s.items[k].invalidated ==> s.items[k].refs > 0
    requires forall k :: 0 <= k < i ==> Dropped(s.items[k], key)
    ensures var u := s.(items := s.items[i := s.items[i].(invalidated := true)]);
            var t := DropFrom(u, key, i + 1);
            && Account(t) && AllSurvive(s.items, t.items) && t.limit == s.limit && t.cap == s.cap && t.loose == s.loose && t.bytes <= s.bytes
            && (forall k :: 0 <= k < |t.items| && t.items[k].invalidated ==> t.items[k].refs > 0)
            && (forall k :: 0 <= k < |t.items| ==> Dropped(t.items[k], key))
    decreases |s.items| - i, 0
  {
    hide AllSurvive, DropFrom;
    var u := s.(items := s.items[i := s.items[i].(invalidated := true)]);
    MarkedAccount(s, i);
    MarkSurvivors(s.items, i);
    DropKeeps(u, key, i + 1);
    SurviveTrans(s.items, u.items, DropFrom(u, key, i + 1).items);
  }

  lemma MarkedAccount(s: Store, i: nat)
    requires Account(s) && i < |s.items|
    ensures Account(s.(items := s.items[i := s.items[i].(invalidated := true)]))
  {
    RefsUpdate(s.items, i, s.items[i].(invalidated := true));
  }

  /** Whether an item was marked before it is removed makes no difference. */
  lemma RemoveMarked(items: seq<Item>, i: nat)
    requires i < |items|
    ensures var x := items[i].(invalidated := true); Without(items[i := x], i) == Without(items, i) && items[i := x][i].info == items[i].info
  {
  }

  lemma MarkSurvivors(items: seq<Item>, i: nat)
    requires i < |items|
    ensures AllSurvive(items, items[i := items[i].(invalidated := true)])
  {
    var to := items[i := items[i].(invalidated := true)];
    forall k | 0 <= k < |items| ensures Survives(items[k], to) { assert to[k].id == items[k].id; }
  }

  /** A new limit: over it only items that are read remain; a zero limit invalidates them all. */
  lemma SetLimitKeeps(s: Store, bytes: u32)
    requires Inv(s)
    ensures Inv(SetLimit(s, bytes)) && AllSurvive(s.items, SetLimit(s, bytes).items)
    ensures var t := SetLimit(s, bytes); t.limit == bytes && t.loose == s.loose && t.cap == s.cap
  {
    hide Account, AllSurvive, DropFrom, Trim;
    var t := s.(limit := bytes);
    LimitFree(s, bytes);
    SurviveSelf(s.items);
    if bytes == 0 { DropKeeps(t, None, 0); }
    var u := if bytes == 0 then Drop(t, None) else t;
    TrimKeeps(u, bytes);
    SurviveTrans(s.items, u.items, Trim(u, bytes).items);
  }

  lemma LimitFree(s: Store, bytes: u32)
    ensures Account(s.(limit := bytes)) == Account(s)
  {
  }

  lemma ZeroLimitAccount(s: Store)
    requires Inv(s)
    ensures Account(Drop(s.(limit := 0), None))
  {
    hide Account, DropFrom, AllSurvive;
    LimitFree(s, 0);
    DropKeeps(s.(limit := 0), None, 0);
  }

  lemma DropInv(s: Store, key: Option<Key>)
    requires Inv(s)
    ensures Inv(Drop(s, key)) && AllSurvive(s.items, Drop(s, key).items) && Drop(s, key).loose == s.loose
    ensures forall k :: 0 <= k < |Drop(s, key).items| ==> Dropped(Drop(s, key).items[k], key)
  {
    hide Account, AllSurvive, DropFrom;
    DropKeeps(s, key, 0);
    if s.bytes > s.limit || s.limit == 0 { DropKeptLimit(s, key, 0); }
  }

  /** Dropping introduces no item: what is left was there, possibly made invalid. */
  lemma {:induction false} DropKeptLimit(s: Store, key: Option<Key>, i: nat)
    requires i <= |s.items|
    ensures forall k :: 0 <= k < |DropFrom(s, key, i).items| ==> FromItems(DropFrom(s, key, i).items[k], s.items)
    decreases |s.items| - i
  {
    hide Without;
    if i == |s.items| {
      forall k | 0 <= k < |s.items| ensures FromItems(s.items[k], s.items) { assert s.items[k].refs == s.items[k].refs; }
    } else {
      var x := s.items[i];
      WithoutAt(s.items, i);
      if key.Some? && key.value != x.info.key { DropKeptLimit(s, key, i + 1); }
      else if x.refs == 0 { DropKeptLimit(Remove(s, i), key, i); }
      else { DropKeptLimit(s.(items := s.items[i := x.(invalidated := true)]), key, i + 1); }
    }
  }

  predicate FromItems(x: Item, items: seq<Item>)
  {
    exists k :: 0 <= k < |items| && items[k].id == x.id && items[k].refs == x.refs && (items[k].invalidated ==> x.invalidated)
  }

  // ----- opening -----

  /** A hit serves a valid item of the same source and compatible arguments, adds one reader to it and
      makes it the newest; nothing else changes. */
  lemma AcquireKeeps(s: Store, key: Key, args: Args, noCache: bool)
    requires Inv(s)
    ensures var (t, hit) := Acquire(s, key, args, noCache);
            && Inv(t) && t.loose == s.loose && t.limit == s.limit && t.cap == s.cap
            && (hit.None? ==> t.items == s.items && t.open == s.open
                              && (noCache || s.limit == 0 || forall k :: 0 <= k < |s.items| ==> !Serves(s.items[k], key, args)))
            && (hit.Some? ==>
                  exists i :: 0 <= i < |s.items| && s.items[i].id == hit.value && Serves(s.items[i], key, args)
                              && t.items == Without(s.items, i) + [s.items[i].(refs := s.items[i].refs + 1)] && t.open == s.open + 1)
  {
    hide Account, Serves, Without;
    if !noCache && s.limit != 0 {
      var r := FindNewest(s.items, key, args, |s.items|);
      if r > 0 {
        MoveKeeps(s, r - 1, s.hits + 1);
        WithoutAt(s.items, r - 1);
      } else {
        MissesFree(s);
      }
    }
  }

  /** Without caching a lookup finds nothing. */
  lemma AcquireOff(s: Store, key: Key, args: Args)
    ensures Acquire(s, key, args, true) == (s, None)
    ensures s.limit == 0 ==> Acquire(s, key, args, false) == (s, None)
  {
  }

  /** The ways a lookup goes while caching is on. */
  lemma LookupIs(s: Store, key: Key, args: Args)
    requires s.limit != 0
    ensures var r := FindNewest(s.items, key, args, |s.items|);
            Acquire(s, key, args, false)
            == if r == 0 then (s.(misses := s.misses + 1), None)
               else
                 var x := s.items[r - 1];
                 (s.(items := Without(s.items, r - 1) + [x.(refs := x.refs + 1)], hits := s.hits + 1, open := s.open + 1), Some(x.id))
  {
  }

  lemma MissesFree(s: Store)
    ensures Account(s.(misses := s.misses + 1)) == Account(s)
  {
  }

  lemma MoveKeeps(s: Store, i: nat, hits: nat)
    requires Account(s) && i < |s.items|
    ensures var x := s.items[i].(refs := s.items[i].refs + 1);
            Account(s.(items := Without(s.items, i) + [x], hits := hits, open := s.open + 1))
  {
    hide Without;
    var x := s.items[i].(refs := s.items[i].refs + 1);
    WithoutAt(s.items, i);
    CostWithout(s.items, i);
    SumsAppend(Without(s.items, i), x);
  }

  /** Making room evicts only items nobody reads and ends with room for the new one, or with every item read. */
  lemma {:induction false} MakeRoomKeeps(s: Store, cost: nat)
    requires Inv(s)
    ensures var (t, room) := MakeRoom(s, cost);
            && Inv(t) && AllSurvive(s.items, t.items) && t.limit == s.limit && t.cap == s.cap && t.loose == s.loose && t.open == s.open
            && (room ==> cost + t.bytes <= t.limit && t.entries < t.cap)
            && (forall i :: 0 <= i < |t.items| ==> t.items[i] in s.items)
    decreases |s.items|
  {
    hide Account, AllSurvive, EvictOne;
    SurviveSelf(s.items);
    if !(cost + s.bytes <= s.limit && s.entries < s.cap) {
      EvictKeeps(s);
      var (t, more) := EvictOne(s);
      EvictKept(s);
      if more {
        MakeRoomKeeps(t, cost);
        SurviveTrans(s.items, t.items, MakeRoom(t, cost).0.items);
      }
    }
  }

  lemma EvictKept(s: Store)
    requires Inv(s)
    ensures Kept(EvictOne(s).0.items, EvictOne(s).0.bytes, s.limit)
  {
    hide Account, EvictOne;
    EvictKeeps(s);
  }

  predicate Unknown(s: Store, id: nat)
  {
    id !in s.loose && forall i :: 0 <= i < |s.items| ==> s.items[i].id != id
  }

  /** An insertion ends with the new item cached, valid and alone for its source and arguments, within
      the byte limit and the entry cap; or with the session left uncached. */
  lemma InsertKeeps(s: Store, id: nat, info: Info, noCache: bool, keyed: bool)
    requires Inv(s) && id in s.loose && (forall i :: 0 <= i < |s.items| ==> s.items[i].id != id)
    requires noCache || s.limit == 0 || forall k :: 0 <= k < |s.items| ==> !Serves(s.items[k], info.key, info.args)
    ensures var t := Insert(s, id, info, noCache, keyed);
            && Inv(t) && AllSurvive(s.items, t.items) && t.limit == s.limit && t.cap == s.cap && t.open == s.open
            && (if id in t.loose then t.loose == s.loose
                else t.loose == s.loose - {id} && |t.items| > 0 && t.items[|t.items| - 1] == Item(id, info, 1, false)
                     && t.bytes <= t.limit && t.entries <= t.cap)
  {
    hide Account, AllSurvive, MakeRoom;
    SurviveSelf(s.items);
    if !noCache && s.limit != 0 && info.cost <= s.limit {
      MakeRoomKeeps(s, info.cost);
      var (t, room) := MakeRoom(s, info.cost);
      if room && keyed {
        assert forall k :: 0 <= k < |t.items| ==> !Serves(t.items[k], info.key, info.args) && t.items[k].id != id;
        AppendKeeps(t, id, info);
        AppendSurvivors(t.items, Item(id, info, 1, false));
        SurviveTrans(s.items, t.items, t.items + [Item(id, info, 1, false)]);
      }
    }
  }

  lemma AppendSurvivors(items: seq<Item>, x: Item)
    ensures AllSurvive(items, items + [x])
  {
    forall k | 0 <= k < |items| ensures Survives(items[k], items + [x]) { assert (items + [x])[k] == items[k]; }
  }

  lemma AppendKeeps(t: Store, id: nat, info: Info)
    requires Inv(t) && id in t.loose && (forall i :: 0 <= i < |t.items| ==> t.items[i].id != id)
    requires forall k :: 0 <= k < |t.items| ==> !Serves(t.items[k], info.key, info.args)
    requires info.cost + t.bytes <= t.limit && t.entries < t.cap && t.limit != 0
    ensures var x := Item(id, info, 1, false);
            Inv(t.(items := t.items + [x], loose := t.loose - {id}, entries := t.entries + 1, bytes := t.bytes + info.cost))
  {
    var x := Item(id, info, 1, false);
    SumsAppend(t.items, x);
    assert |t.loose - {id}| == |t.loose| - 1;
  }

  /** The item with an id, if it is cached. */
  predicate Cached(s: Store, id: nat)
  {
    exists i :: 0 <= i < |s.items| && s.items[i].id == id
  }

  lemma UnknownStill(s: Store, t: Store, id: nat)
    requires Unknown(s, id) && t.items == s.items && t.loose == s.loose
    ensures Unknown(t, id)
  {
  }

  /** An invalidated item with n readers. */
  predicate Stale(s: Store, id: nat, n: nat)
  {
    exists i :: 0 <= i < |s.items| && s.items[i].id == id && s.items[i].invalidated && s.items[i].refs == n
  }

  lemma StaleSurvives(s: Store, t: Store, id: nat, n: nat)
    requires Inv(s) && Stale(s, id, n) && AllSurvive(s.items, t.items)
    ensures Stale(t, id, n)
  {
    hide Account;
    var i :| 0 <= i < |s.items| && s.items[i].id == id && s.items[i].invalidated && s.items[i].refs == n;
    var x := s.items[i];
    var k :| 0 <= k < |t.items| && t.items[k].id == x.id && t.items[k].info == x.info && t.items[k].refs == x.refs
             && (x.invalidated ==> t.items[k].invalidated);
  }

  /** A hit is a valid item, so an invalid one keeps its place and its readers. */
  lemma StaleThroughHit(s: Store, t: Store, key: Key, args: Args, hit: nat, id: nat, n: nat)
    requires Account(s) && Stale(s, id, n)
    requires exists i :: 0 <= i < |s.items| && s.items[i].id == hit && Serves(s.items[i], key, args)
                         && t.items == Without(s.items, i) + [s.items[i].(refs := s.items[i].refs + 1)]
    ensures Stale(t, id, n) && hit != id
  {
    hide Without, Cost, Refs, OneEach;
    var i :| 0 <= i < |s.items| && s.items[i].id == hit && Serves(s.items[i], key, args)
             && t.items == Without(s.items, i) + [s.items[i].(refs := s.items[i].refs + 1)];
    var k :| 0 <= k < |s.items| && s.items[k].id == id && s.items[k].invalidated && s.items[k].refs == n;
    WithoutAt(s.items, i);
    var l := if k < i then k else k - 1;
    assert t.items[l] == s.items[k];
  }

  lemma StaleKnown(s: Store, id: nat, x: nat, n: nat)
    requires Stale(s, x, n) && Unknown(s, id)
    ensures x != id
  {
  }

  lemma StaleSame(s: Store, t: Store, x: nat, n: nat)
    requires Stale(s, x, n) && t.items == s.items
    ensures Stale(t, x, n)
  {
  }

  /** Opening never hands out an invalid item and leaves it as it is. */
  lemma StaleThroughOpen(s: Store, id: nat, key: Key, args: Args, noCache: bool, decoded: Option<Info>, keyed: bool, x: nat, n: nat)
    requires Inv(s) && Unknown(s, id) && Stale(s, x, n)
    ensures var (t, got) := Open(s, id, key, args, noCache, decoded, keyed); Stale(t, x, n) && got != Some(x)
  {
    hide Account, Acquire, Insert, AllSurvive, Serves, Stale;
    AcquireKeeps(s, key, args, noCache);
    var (t, hit) := Acquire(s, key, args, noCache);
    StaleKnown(s, id, x, n);
    if hit.Some? {
      StaleThroughHit(s, t, key, args, hit.value, x, n);
    } else {
      StaleSame(s, t, x, n);
      if decoded.Some? {
        var u, info := WithLoose(t, id), decoded.value.(key := key, args := args);
        UnknownStill(s, t, id);
        LooseKeeps(t, id);
        StaleSame(t, u, x, n);
        Fresh(t, id);
        InsertKeeps(u, id, info, noCache, keyed);
        StaleSurvives(u, Insert(u, id, info, noCache, keyed), x, n);
      }
    }
  }

  lemma Fresh(s: Store, id: nat)
    requires Unknown(s, id)
    ensures id in WithLoose(s, id).loose && forall i :: 0 <= i < |s.items| ==> s.items[i].id != id
  {
  }

  /** The ways an insertion goes. */
  lemma InsertIs(s: Store, id: nat, info: Info, noCache: bool, keyed: bool)
    ensures var (t, room) := MakeRoom(s, info.cost);
            Insert(s, id, info, noCache, keyed)
            == if noCache || s.limit == 0 || info.cost > s.limit then s else if !room || !keyed then t
               else t.(items := t.items + [Item(id, info, 1, false)], loose := t.loose - {id},
                       entries := t.entries + 1, bytes := t.bytes + info.cost)
  {
    hide MakeRoom;
  }

  /** The two ways an open goes. */
  lemma OpenIs(s: Store, id: nat, key: Key, args: Args, noCache: bool, decoded: Option<Info>, keyed: bool)
    ensures var (t, hit) := Acquire(s, key, args, noCache);
            Open(s, id, key, args, noCache, decoded, keyed)
            == if hit.Some? || decoded.None? then (t, hit)
               else (Insert(WithLoose(t, id), id, decoded.value.(key := key, args := args), noCache, keyed), Some(id))
  {
  }

  /** An open hands out a session that is open from then on: a valid cached item of that source, or
      the fresh decode; items that others read stay. */
  lemma OpenKeeps(s: Store, id: nat, key: Key, args: Args, noCache: bool, decoded: Option<Info>, keyed: bool)
    requires Inv(s) && Unknown(s, id)
    ensures var (t, got) := Open(s, id, key, args, noCache, decoded, keyed);
            && Inv(t) && t.limit == s.limit && t.cap == s.cap
            && (got.Some? ==> t.open == s.open + 1 && (got.value in t.loose || Cached(t, got.value)))
            && (got.Some? && got.value != id ==>
                  exists i :: 0 <= i < |s.items| && s.items[i].id == got.value && Serves(s.items[i], key, args))
            && (got == Some(id) ==> decoded.Some?)
            && (got.None? ==> decoded.None? && t.items == s.items && t.open == s.open)
            && (forall x: nat, n: nat :: Stale(s, x, n) ==> Stale(t, x, n) && got != Some(x))
  {
    hide Account, Acquire, Insert, AllSurvive, Serves, Stale;
    AcquireKeeps(s, key, args, noCache);
    var (t, hit) := Acquire(s, key, args, noCache);
    forall x: nat, n: nat | Stale(s, x, n) ensures Stale(Open(s, id, key, args, noCache, decoded, keyed).0, x, n)
                                         && Open(s, id, key, args, noCache, decoded, keyed).1 != Some(x) {
      StaleThroughOpen(s, id, key, args, noCache, decoded, keyed, x, n);
    }
    if hit.Some? {
      HitCached(s, t, hit.value, key, args);
    } else if decoded.Some? {
      var u := WithLoose(t, id);
      UnknownStill(s, t, id);
      Fresh(t, id);
      LooseKeeps(t, id);
      var info := decoded.value.(key := key, args := args);
      InsertKeeps(u, id, info, noCache, keyed);
      var v := Insert(u, id, info, noCache, keyed);
      if id !in v.loose { assert v.items[|v.items| - 1].id == id; }
    }
  }

  lemma HitCached(s: Store, t: Store, id: nat, key: Key, args: Args)
    requires exists i :: 0 <= i < |s.items| && s.items[i].id == id && Serves(s.items[i], key, args)
                         && t.items == Without(s.items, i) + [s.items[i].(refs := s.items[i].refs + 1)] && t.open == s.open + 1
    ensures Cached(t, id)
  {
    assert t.items[|t.items| - 1].id == id;
  }

  lemma LooseKeeps(s: Store, id: nat)
    requires Inv(s) && Unknown(s, id)
    ensures Inv(WithLoose(s, id))
  {
    assert |s.loose + {id}| == |s.loose| + 1;
  }

  /** A close ends one reader. An uncached session is freed; a cached item is freed exactly at its last
      close when it was invalidated or the cache is over its limit; every other item stays as it was. */
  lemma CloseKeeps(s: Store, id: nat)
    requires Inv(s)
    ensures var t := Close(s, id);
            && Inv(t) && t.limit == s.limit && t.cap == s.cap
            && (id in s.loose ==> t.loose == s.loose - {id} && t.items == s.items && t.open == s.open - 1)
            && (forall i :: 0 <= i < |s.items| && s.items[i].id == id && s.items[i].refs > 0 ==>
                  && t.open == s.open - 1
                  && (Cached(t, id) <==> !(s.items[i].refs == 1 && (s.items[i].invalidated || s.bytes > s.limit))))
  {
    hide Account;
    if id in s.loose {
      LooseClosed(s, id);
    } else {
      var i := Find(s.items, (x: Item) => x.id == id, 0);
      if i < |s.items| && s.items[i].refs > 0 {
        ReaderLess(s, i);
        var x := s.items[i].(refs := s.items[i].refs - 1);
        var t := s.(items := s.items[i := x], open := Max(s.open - 1, 0));
        OnlyOne(s, i);
        if x.refs == 0 && (x.invalidated || t.bytes > t.limit) {
          RemoveKeeps(t, i);
          RemovedKept(t, i);
        } else {
          assert t.items[i].id == id;
        }
      } else if i < |s.items| {
        OnlyOne(s, i);
      }
    }
  }

  lemma InvAccount(s: Store)
    requires Inv(s)
    ensures Account(s)
  {
  }

  lemma IdNotLoose(s: Store, i: nat)
    requires Account(s) && i < |s.items|
    ensures s.items[i].id !in s.loose
  {
  }

  lemma OnlyOne(s: Store, i: nat)
    requires Account(s) && i < |s.items|
    ensures forall k :: 0 <= k < |s.items| && k != i ==> s.items[k].id != s.items[i].id
  {
    hide OneEach, Cost, Refs;
  }

  lemma LooseClosed(s: Store, id: nat)
    requires Inv(s) && id in s.loose
    ensures s.open > 0 && Inv(s.(loose := s.loose - {id}, open := Max(s.open - 1, 0)))
    ensures forall i :: 0 <= i < |s.items| ==> s.items[i].id != id
  {
    assert |s.loose - {id}| == |s.loose| - 1;
  }

  lemma ReaderLess(s: Store, i: nat)
    requires Account(s) && i < |s.items| && s.items[i].refs > 0
    ensures s.open > 0
    ensures Account(s.(items := s.items[i := s.items[i].(refs := s.items[i].refs - 1)], open := Max(s.open - 1, 0)))
  {
    RefsUpdate(s.items, i, s.items[i].(refs := s.items[i].refs - 1));
    RefsCover(s.items, i);
  }

  lemma RemovedKept(t: Store, i: nat)
    requires i < |t.items| && t.items[i].refs == 0 && Account(t)
    requires forall k :: 0 <= k < |t.items| && k != i ==> (t.items[k].invalidated || t.bytes > t.limit ==> t.items[k].refs > 0)
    requires t.limit == 0 ==> forall k :: 0 <= k < |t.items| ==> t.items[k].invalidated
    requires forall k :: 0 <= k < |t.items| && k != i ==> t.items[k].id != t.items[i].id
    ensures Kept(Remove(t, i).items, Remove(t, i).bytes, t.limit) && !Cached(Remove(t, i), t.items[i].id)
  {
    hide Without, Account;
    WithoutAt(t.items, i);
  }

  // ----- whole runs -----

  datatype Op =
    | OpenImage(id: nat, key: Key, args: Args, noCache: bool, decoded: Option<Info>, keyed: bool)
    | CloseImage(id: nat)
    | DropImages(which: Option<Key>)
    | Limit(bytes: u32)

  /** A new session is none of those that exist. */
  function Apply(s: Store, op: Op): (t: Store)
    requires Inv(s)
    ensures Inv(t)
  {
    match op
    case OpenImage(id, key, args, noCache, decoded, keyed) =>
      if !Unknown(s, id) then s
      else OpenKeeps(s, id, key, args, noCache, decoded, keyed); Open(s, id, key, args, noCache, decoded, keyed).0
    case CloseImage(id) => CloseKeeps(s, id); Close(s, id)
    case DropImages(which) => DropInv(s, which); Drop(s, which)
    case Limit(bytes) => SetLimitKeeps(s, bytes); SetLimit(s, bytes)
  }

  function After(cap: nat, limit: u32, ops: seq<Op>): (s: Store)
    ensures Inv(s)
  {
    if ops == [] then Created(cap, limit) else Apply(After(cap, limit, ops[..|ops| - 1]), ops[|ops| - 1])
  }

  /** A session that somebody reads. */
  predicate Read(s: Store, id: nat)
  {
    id in s.loose || exists i :: 0 <= i < |s.items| && s.items[i].id == id && s.items[i].refs > 0
  }

  /** Over every run a session that is read is freed by nothing but its own close; and the counters
      are the sums they stand for, within the cap, over the byte limit only while every item is read. */
  lemma ReadersAreSafe(cap: nat, limit: u32, ops: seq<Op>, op: Op, id: nat)
    ensures var s := After(cap, limit, ops);
            && Account(s)
            && (s.bytes > s.limit ==> forall i :: 0 <= i < |s.items| ==> s.items[i].refs > 0)
            && (Read(s, id) && op != CloseImage(id) ==> Read(Apply(s, op), id))
  {
    hide After, Account, Apply;
    var s := After(cap, limit, ops);
    if Read(s, id) && op != CloseImage(id) {
      match op
      case OpenImage(_, _, _, _, _, _) => ReadThroughOpen(s, op, id);
      case CloseImage(other) => ReadThroughClose(s, other, id);
      case DropImages(which) =>
        DropInv(s, which);
        ReadSurvives(s, Drop(s, which), id);
        ApplyIs(s, op);
      case Limit(bytes) =>
        SetLimitKeeps(s, bytes);
        ReadSurvives(s, SetLimit(s, bytes), id);
        ApplyIs(s, op);
    }
  }

  lemma ApplyIs(s: Store, op: Op)
    requires Inv(s)
    ensures op.DropImages? ==> Apply(s, op) == Drop(s, op.which)
    ensures op.Limit? ==> Apply(s, op) == SetLimit(s, op.bytes)
  {
  }

  lemma ReadSurvives(s: Store, t: Store, id: nat)
    requires Read(s, id) && AllSurvive(s.items, t.items) && (id in s.loose ==> id in t.loose)
    ensures Read(t, id)
  {
    if id !in s.loose {
      var i :| 0 <= i < |s.items| && s.items[i].id == id && s.items[i].refs > 0;
      var k :| 0 <= k < |t.items| && t.items[k].id == s.items[i].id && t.items[k].info == s.items[i].info && t.items[k].refs == s.items[i].refs
               && (s.items[i].invalidated ==> t.items[k].invalidated);
    }
  }

  lemma ReadThroughOpen(s: Store, op: Op, id: nat)
    requires Inv(s) && Read(s, id) && op.OpenImage?
    ensures Read(Apply(s, op), id)
  {
    hide Account, Acquire, Insert, AllSurvive, Serves;
    if Unknown(s, op.id) {
      AcquireKeeps(s, op.key, op.args, op.noCache);
      var (t, hit) := Acquire(s, op.key, op.args, op.noCache);
      if hit.Some? {
        ReadThroughHit(s, t, op.key, op.args, id);
      } else {
        SameReads(s, t, id);
        if op.decoded.Some? {
          LooseKeeps(t, op.id);
          var u := WithLoose(t, op.id);
          SameReads(t, u, id);
          var info := op.decoded.value.(key := op.key, args := op.args);
          InsertKeeps(u, op.id, info, op.noCache, op.keyed);
          var v := Insert(u, op.id, info, op.noCache, op.keyed);
          if id != op.id { ReadSurvives(u, v, id); }
        }
      }
    }
  }

  lemma SameReads(s: Store, t: Store, id: nat)
    requires Read(s, id) && t.items == s.items && s.loose <= t.loose
    ensures Read(t, id)
  {
  }

  lemma ReadThroughHit(s: Store, t: Store, key: Key, args: Args, id: nat)
    requires Read(s, id) && t.loose == s.loose
    requires exists i :: 0 <= i < |s.items| && Serves(s.items[i], key, args)
                         && t.items == Without(s.items, i) + [s.items[i].(refs := s.items[i].refs + 1)]
    ensures Read(t, id)
  {
    hide Without, Serves;
    if id !in s.loose {
      var i :| 0 <= i < |s.items| && Serves(s.items[i], key, args)
               && t.items == Without(s.items, i) + [s.items[i].(refs := s.items[i].refs + 1)];
      var k :| 0 <= k < |s.items| && s.items[k].id == id && s.items[k].refs > 0;
      WithoutAt(s.items, i);
      var l := if k == i then |t.items| - 1 else if k < i then k else k - 1;
      assert t.items[l].id == id && t.items[l].refs > 0;
    }
  }

  lemma ReadThroughClose(s: Store, other: nat, id: nat)
    requires Inv(s) && Read(s, id) && other != id
    ensures Read(Apply(s, CloseImage(other)), id)
  {
    hide Account, Without;
    var t := Close(s, other);
    if id !in s.loose && other !in s.loose {
      var k :| 0 <= k < |s.items| && s.items[k].id == id && s.items[k].refs > 0;
      var i := Find(s.items, (x: Item) => x.id == other, 0);
      if i < |s.items| && s.items[i].refs > 0 {
        var x := s.items[i].(refs := s.items[i].refs - 1);
        WithoutAt(s.items[i := x], i);
        var l := if |t.items| == |s.items| || k < i then k else k - 1;
        assert t.items[l].id == id && t.items[l].refs > 0;
      }
    }
  }

  // ----- invalidated items -----

  /** What an operation hands out. */
  function Answer(s: Store, op: Op): Option<nat>
    requires Inv(s)
  {
    if op.OpenImage? && Unknown(s, op.id) then Open(s, op.id, op.key, op.args, op.noCache, op.decoded, op.keyed).1 else None
  }

  /** The session is not there any more. */
  predicate Gone(s: Store, id: nat)
  {
    Unknown(s, id)
  }

  /** Only its own closes touch an invalid item, each taking one reader; with the last reader it goes. */
  lemma StaleStep(s: Store, op: Op, id: nat, n: nat)
    requires Inv(s) && Stale(s, id, n)
    ensures n > 0 && Answer(s, op) != Some(id)
    ensures op != CloseImage(id) ==> Stale(Apply(s, op), id, n)
    ensures op == CloseImage(id) ==> if n == 1 then Gone(Apply(s, op), id) else Stale(Apply(s, op), id, n - 1)
  {
    hide Account, Stale, Unknown, AllSurvive, Answer, Apply, Gone;
    StaleRead(s, id, n);
    match op
    case OpenImage(name, key, args, noCache, decoded, keyed) =>
      AnswerIs(s, op);
      if Unknown(s, name) { StaleThroughOpen(s, name, key, args, noCache, decoded, keyed, id, n); }
    case CloseImage(other) =>
      AnswerIs(s, op);
      if other == id { StaleClosed(s, id, n); } else { StaleThroughClose(s, other, id, n); }
    case DropImages(which) =>
      AnswerIs(s, op);
      ApplyIs(s, op);
      DropInv(s, which);
      StaleSurvives(s, Drop(s, which), id, n);
    case Limit(bytes) =>
      AnswerIs(s, op);
      ApplyIs(s, op);
      SetLimitKeeps(s, bytes);
      StaleSurvives(s, SetLimit(s, bytes), id, n);
  }

  lemma AnswerIs(s: Store, op: Op)
    requires Inv(s)
    ensures !op.OpenImage? ==> Answer(s, op) == None
    ensures op.CloseImage? ==> Apply(s, op) == Close(s, op.id)
    ensures op.OpenImage? && !Unknown(s, op.id) ==> Answer(s, op) == None && Apply(s, op) == s
    ensures op.OpenImage? && Unknown(s, op.id) ==>
              (Apply(s, op), Answer(s, op)) == Open(s, op.id, op.key, op.args, op.noCache, op.decoded, op.keyed)
  {
    hide Unknown, Open;
  }

  lemma StaleRead(s: Store, id: nat, n: nat)
    requires Inv(s) && Stale(s, id, n)
    ensures n > 0
  {
    hide Account;
  }

  lemma StaleClosed(s: Store, id: nat, n: nat)
    requires Inv(s) && Stale(s, id, n)
    ensures if n == 1 then Gone(Close(s, id), id) else Stale(Close(s, id), id, n - 1)
  {
    hide Account, Without;
    var i :| 0 <= i < |s.items| && s.items[i].id == id && s.items[i].invalidated && s.items[i].refs == n;
    IdNotLoose(s, i);
    OnlyOne(s, i);
    FindIs(s.items, (x: Item) => x.id == id, i, 0);
    var x := s.items[i].(refs := n - 1);
    WithoutAt(s.items[i := x], i);
    if n > 1 { assert Close(s, id).items[i] == x; }
  }

  lemma StaleThroughClose(s: Store, other: nat, id: nat, n: nat)
    requires Inv(s) && Stale(s, id, n) && other != id
    ensures Stale(Close(s, other), id, n)
  {
    hide Account, Without;
    var k :| 0 <= k < |s.items| && s.items[k].id == id && s.items[k].invalidated && s.items[k].refs == n;
    var t := Close(s, other);
    if other !in s.loose {
      var i := Find(s.items, (x: Item) => x.id == other, 0);
      if i < |s.items| && s.items[i].refs > 0 {
        var x := s.items[i].(refs := s.items[i].refs - 1);
        WithoutAt(s.items[i := x], i);
        var l := if |t.items| == |s.items| || k < i then k else k - 1;
        assert t.items[l] == s.items[k];
      }
    }
  }

  function Closes(ops: seq<Op>, id: nat): (n: nat)
  {
    if ops == [] then 0 else Closes(ops[..|ops| - 1], id) + if ops[|ops| - 1] == CloseImage(id) then 1 else 0
  }

  /** What a session that is gone stays, as long as no new one takes its name. */
  lemma GoneStep(s: Store, op: Op, id: nat)
    requires Inv(s) && Gone(s, id) && !(op.OpenImage? && op.id == id)
    ensures Gone(Apply(s, op), id) && Answer(s, op) != Some(id)
  {
    hide Account, AllSurvive, Apply, Answer;
    AnswerIs(s, op);
    match op
    case OpenImage(name, key, args, noCache, decoded, keyed) =>
      if Unknown(s, name) { GoneThroughOpen(s, name, key, args, noCache, decoded, keyed, id); }
    case CloseImage(other) => GoneThroughClose(s, other, id);
    case DropImages(which) =>
      ApplyIs(s, op);
      DropInv(s, which);
      DropKeptLimit(s, which, 0);
      GoneFrom(s, Drop(s, which), id);
    case Limit(bytes) =>
      ApplyIs(s, op);
      GoneThroughLimit(s, bytes, id);
  }

  lemma GoneThroughClose(s: Store, other: nat, id: nat)
    requires Inv(s) && Gone(s, id)
    ensures Gone(Close(s, other), id)
  {
    hide Account, Without;
    var i := Find(s.items, (x: Item) => x.id == other, 0);
    if i < |s.items| { WithoutAt(s.items[i := s.items[i].(refs := Max(s.items[i].refs - 1, 0))], i); }
  }

  lemma GoneThroughOpen(s: Store, name: nat, key: Key, args: Args, noCache: bool, decoded: Option<Info>, keyed: bool, id: nat)
    requires Inv(s) && Unknown(s, name) && Gone(s, id) && name != id
    ensures var (t, got) := Open(s, name, key, args, noCache, decoded, keyed); Gone(t, id) && got != Some(id)
  {
    hide Account, Acquire, Insert, AllSurvive, Serves, Without;
    AcquireKeeps(s, key, args, noCache);
    var (t, hit) := Acquire(s, key, args, noCache);
    if hit.Some? {
      var i :| 0 <= i < |s.items| && s.items[i].id == hit.value && Serves(s.items[i], key, args)
               && t.items == Without(s.items, i) + [s.items[i].(refs := s.items[i].refs + 1)];
      WithoutAt(s.items, i);
    } else if decoded.Some? {
      var info := decoded.value.(key := key, args := args);
      LooseKeeps(t, name);
      GoneThroughInsert(WithLoose(t, name), name, info, noCache, keyed, id);
    }
  }

  lemma GoneFrom(s: Store, t: Store, id: nat)
    requires Gone(s, id) && t.loose <= s.loose && forall k :: 0 <= k < |t.items| ==> FromItems(t.items[k], s.items)
    ensures Gone(t, id)
  {
  }

  lemma OldItems(s: Store, t: Store, id: nat)
    requires Gone(s, id) && t.loose <= s.loose && forall k :: 0 <= k < |t.items| ==> t.items[k] in s.items
    ensures Gone(t, id)
  {
  }

  lemma GoneThroughInsert(s: Store, name: nat, info: Info, noCache: bool, keyed: bool, id: nat)
    requires Inv(s) && Gone(s, id) && name != id
    ensures Gone(Insert(s, name, info, noCache, keyed), id)
  {
    hide Account, AllSurvive, MakeRoom;
    if !noCache && s.limit != 0 && info.cost <= s.limit {
      MakeRoomKeeps(s, info.cost);
      OldItems(s, MakeRoom(s, info.cost).0, id);
    }
  }

  lemma GoneThroughLimit(s: Store, bytes: u32, id: nat)
    requires Inv(s) && Gone(s, id)
    ensures Gone(SetLimit(s, bytes), id)
  {
    hide Account, AllSurvive, DropFrom, Trim, Gone, FromItems;
    var t := s.(limit := bytes);
    LimitFree(s, bytes);
    GoneSame(s, t, id);
    var u := if bytes == 0 then Drop(t, None) else t;
    if bytes == 0 {
      DropKeeps(t, None, 0);
      DropKeptLimit(t, None, 0);
      GoneFrom(t, u, id);
    }
    TrimKeeps(u, bytes);
    OldItems(u, Trim(u, bytes), id);
  }

  lemma GoneSame(s: Store, t: Store, id: nat)
    requires Gone(s, id) && t.items == s.items && t.loose == s.loose
    ensures Gone(t, id)
  {
  }

  /** The operations that name a session anew. */
  predicate Renames(op: Op, id: nat)
  {
    op.OpenImage? && op.id == id
  }

  /** An invalid item with n readers after c of its closes. */
  predicate StaleAfter(s: Store, id: nat, n: nat, c: nat)
  {
    if c < n then Stale(s, id, n - c) else Gone(s, id)
  }

  /** Once a session is invalid it is never handed out again; it stays, whatever else happens, while
      it has readers, and leaves with the last of them. */
  lemma {:induction false} InvalidForGood(cap: nat, limit: u32, ops: seq<Op>, more: seq<Op>, id: nat, n: nat)
    requires Stale(After(cap, limit, ops), id, n)
    requires forall k :: 0 <= k < |more| ==> !Renames(more[k], id)
    ensures StaleAfter(After(cap, limit, ops + more), id, n, Closes(more, id))
    ensures forall k :: 0 <= k < |more| ==> Answer(After(cap, limit, ops + more[..k]), more[k]) != Some(id)
    decreases |more|
  {
    hide Inv, Stale, Gone, Answer, Apply, Renames, After;
    if more == [] {
      assert ops + more == ops;
      CountPositive(cap, limit, ops, id, n);
    } else {
      var rest, op := more[..|more| - 1], more[|more| - 1];
      InvalidForGood(cap, limit, ops, rest, id, n);
      AfterMore(cap, limit, ops, more);
      var s, c := After(cap, limit, ops + rest), Closes(rest, id);
      if c < n { StaleStep(s, op, id, n - c); } else { Renaming(op, id); GoneStep(s, op, id); }
      forall k | 0 <= k < |more| ensures Answer(After(cap, limit, ops + more[..k]), more[k]) != Some(id) {
        if k < |rest| { assert more[..k] == rest[..k] && more[k] == rest[k]; } else { assert more[..k] == rest; }
      }
    }
  }

  lemma Renaming(op: Op, id: nat)
    ensures Renames(op, id) <==> op.OpenImage? && op.id == id
  {
  }

  lemma CountPositive(cap: nat, limit: u32, ops: seq<Op>, id: nat, n: nat)
    requires Stale(After(cap, limit, ops), id, n)
    ensures n > 0
  {
    hide Inv, Stale, After;
    StaleRead(After(cap, limit, ops), id, n);
  }

  lemma AfterMore(cap: nat, limit: u32, ops: seq<Op>, more: seq<Op>)
    requires more != []
    ensures After(cap, limit, ops + more) == Apply(After(cap, limit, ops + more[..|more| - 1]), more[|more| - 1])
  {
    hide Inv, Apply;
    var all := ops + more;
    assert all[..|all| - 1] == ops + more[..|more| - 1] && all[|all| - 1] == more[|more| - 1];
  }
}
