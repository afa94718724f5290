/** What each operation of the decoded-image cache answers and leaves, exactly, in terms of the items' own
    fields: which open is a hit, which items are evicted for room, and what a drop leaves. */
module MppCacheExactly {
  import opened Prelude
  import opened MppCache

  // ----- hits -----

  /** A valid item of the same source, decoded with the same premultiplication and indexing, whose stride will
      do: it was decoded with the stride asked for, or it is a raw buffer and its stride is the aligned one
      if that is asked for. */
  predicate GoodFor(x: Item, key: Key, args: Args)
  {
    && !x.invalidated && x.info.key == key
    && x.info.args.premultiply == args.premultiply && x.info.args.useIndexed == args.useIndexed
    && (x.info.args.strideAlign != args.strideAlign ==> !x.info.heapCopy && (args.strideAlign ==> x.info.strideIsAligned))
  }

  lemma GoodServes(x: Item, key: Key, args: Args)
    ensures GoodFor(x, key, args) <==> Serves(x, key, args)
  {
  }

  /** Item i is the newest that is good for a request. */
  predicate NewestGood(items: seq<Item>, i: nat, key: Key, args: Args)
    requires i < |items|
  {
    && GoodFor(items[i], key, args)
    && forall k :: i < k < |items| ==> !GoodFor(items[k], key, args)
  }

  /** The newest item that is good for the request is handed out, gains a reader and becomes the newest of all. */
  predicate HitAt(s: Store, t: Store, hit: Option<nat>, i: nat, key: Key, args: Args)
  {
    && i < |s.items| && NewestGood(s.items, i, key, args) && hit == Some(s.items[i].id)
    && t == s.(items := s.items[..i] + s.items[i + 1..] + [s.items[i].(refs := s.items[i].refs + 1)], hits := s.hits + 1, open := s.open + 1)
  }

  /** An open is a hit exactly when caching is on, for the cache and for the request, and some item is good for
      it: the newest such item gains a reader and becomes the newest of all. Otherwise the image is decoded,
      the answer is the new session exactly when that succeeds, and it is offered to the cache under the
      request's source and arguments. Hits and misses are counted. */
  lemma OpenExactly(s: Store, id: nat, key: Key, args: Args, noCache: bool, decoded: Option<Info>, keyed: bool)
    requires Inv(s) && Unknown(s, id)
    ensures var (t, got) := Open(s, id, key, args, noCache, decoded, keyed);
            var on := !noCache && s.limit > 0;
            if on && exists i :: 0 <= i < |s.items| && GoodFor(s.items[i], key, args) then
              exists i: nat :: HitAt(s, t, got, i, key, args)
            else
              && (got == if decoded.Some? then Some(id) else None)
              && (got.None? ==> t == s.(misses := t.misses))
              && (got.Some? ==>
                    t == Insert(s.(misses := t.misses, loose := s.loose + {id}, open := s.open + 1), id, decoded.value.(key := key, args := args),
                                noCache, keyed))
              && t.hits == s.hits && t.misses == s.misses + if on then 1 else 0
  {
    hide Inv, GoodFor, Serves, Unknown, Insert, Acquire, HitAt;
    LookupExactly(s, key, args, noCache);
    var t := Acquire(s, key, args, noCache).0;
    if decoded.Some? { InsertCounts(WithLoose(t, id), id, decoded.value.(key := key, args := args), noCache, keyed); }
  }

  /** The lookup: the newest good item, if caching is on. */
  lemma LookupExactly(s: Store, key: Key, args: Args, noCache: bool)
    ensures var (t, hit) := Acquire(s, key, args, noCache);
            var on := !noCache && s.limit > 0;
            if on && exists i :: 0 <= i < |s.items| && GoodFor(s.items[i], key, args) then
              hit.Some? && exists i: nat :: HitAt(s, t, hit, i, key, args)
            else hit.None? && t == s.(misses := s.misses + if on then 1 else 0)
  {
    hide GoodFor, Serves, HitAt, FindNewest;
    NewestIs(s.items, key, args);
    if !noCache && s.limit > 0 && FindNewest(s.items, key, args, |s.items|) > 0 {
      HitIs(s, key, args);
      var (t, hit) := Acquire(s, key, args, noCache);
      HitAnswers(s, t, hit, FindNewest(s.items, key, args, |s.items|) - 1, key, args);
    }
  }

  lemma HitIs(s: Store, key: Key, args: Args)
    requires s.limit > 0 && FindNewest(s.items, key, args, |s.items|) > 0
    ensures var (t, hit) := Acquire(s, key, args, false); HitAt(s, t, hit, FindNewest(s.items, key, args, |s.items|) - 1, key, args)
  {
    hide GoodFor, Serves, FindNewest, NewestGood;
    NewestIs(s.items, key, args);
  }

  lemma HitAnswers(s: Store, t: Store, hit: Option<nat>, i: nat, key: Key, args: Args)
    requires HitAt(s, t, hit, i, key, args)
    ensures hit.Some?
  {
  }

  lemma NewestIs(items: seq<Item>, key: Key, args: Args)
    ensures var r := FindNewest(items, key, args, |items|);
            && (r == 0 <==> forall i :: 0 <= i < |items| ==> !GoodFor(items[i], key, args))
            && (r > 0 ==> NewestGood(items, r - 1, key, args))
  {
    hide GoodFor, Serves;
    forall x: Item ensures GoodFor(x, key, args) <==> Serves(x, key, args) { GoodServes(x, key, args); }
  }

  lemma InsertCounts(s: Store, id: nat, info: Info, noCache: bool, keyed: bool)
    ensures var t := Insert(s, id, info, noCache, keyed); t.hits == s.hits && t.misses == s.misses
  {
    hide MakeRoom;
    RoomCounts(s, info.cost);
  }

  lemma {:induction false} RoomCounts(s: Store, cost: nat)
    ensures var t := MakeRoom(s, cost).0; t.hits == s.hits && t.misses == s.misses
    decreases |s.items|
  {
    if !(cost + s.bytes <= s.limit && s.entries < s.cap) {
      var (t, more) := EvictOne(s);
      if more { RoomCounts(t, cost); }
    }
  }

  // ----- eviction -----

  /** The items that somebody reads. */
  function ReadOnes(items: seq<Item>): (r: seq<Item>)
    ensures |r| <= |items|
  {
    if items == [] then []
    else
      var n := |items| - 1;
      ReadOnes(items[..n]) + if items[n].refs > 0 then [items[n]] else []
  }

  /** The items after those nobody reads among the oldest p are gone. */
  function Thinned(items: seq<Item>, p: nat): seq<Item>
    requires p <= |items|
  {
    ReadOnes(items[..p]) + items[p..]
  }

  lemma {:induction false} ReadOnesConcat(a: seq<Item>, b: seq<Item>)
    ensures ReadOnes(a + b) == ReadOnes(a) + ReadOnes(b)
  {
    if b == [] {
      assert a + b == a;
    } else {
      var n := |b| - 1;
      assert (a + b)[..|a + b| - 1] == a + b[..n] && (a + b)[|a + b| - 1] == b[n];
      ReadOnesConcat(a, b[..n]);
    }
  }

  lemma {:induction false} AllRead(items: seq<Item>)
    requires forall i :: 0 <= i < |items| ==> items[i].refs > 0
    ensures ReadOnes(items) == items
  {
    if items != [] { AllRead(items[..|items| - 1]); }
  }

  /** The oldest item that nobody reads. */
  predicate OldestUnread(items: seq<Item>, i: nat)
  {
    i < |items| && items[i].refs == 0 && forall k :: 0 <= k < i ==> items[k].refs > 0
  }

  /** The evicted item is the oldest that nobody reads; the others keep their order. */
  lemma EvictExactly(s: Store)
    requires Account(s)
    ensures var (t, more) := EvictOne(s);
            && (more <==> exists i :: 0 <= i < |s.items| && s.items[i].refs == 0)
            && (!more ==> t == s)
            && (more ==> exists i: nat :: OldestUnread(s.items, i) &&
                           t == s.(items := s.items[..i] + s.items[i + 1..], bytes := t.bytes, entries := t.entries, evictions := s.evictions + 1)
                           && t.bytes + s.items[i].info.cost == s.bytes && t.entries + 1 == s.entries)
  {
    hide Account;
    var i := Find(s.items, Unreferenced(), 0);
    if i < |s.items| {
      AccountCovers(s, i);
      assert OldestUnread(s.items, i);
    }
  }

  lemma ReadOnesOne(x: Item)
    ensures ReadOnes([x]) == if x.refs > 0 then [x] else []
  {
    assert [x][..0] == [];
  }

  /** An unread item makes no difference. */
  lemma ReadOnesWithout(a: seq<Item>, x: Item, b: seq<Item>)
    requires x.refs == 0
    ensures ReadOnes(a + [x] + b) == ReadOnes(a + b)
  {
    hide ReadOnes;
    ReadOnesOne(x);
    ReadOnesConcat(a, [x]);
    ReadOnesConcat(a + [x], b);
    ReadOnesConcat(a, b);
  }

  /** Thinning further than the oldest unread item does not depend on that item. */
  lemma ThinnedFurther(items: seq<Item>, i: nat, rest: seq<Item>, q: nat)
    requires OldestUnread(items, i) && rest == items[..i] + items[i + 1..] && i <= q <= |rest|
    ensures Thinned(rest, q) == Thinned(items, q + 1)
  {
    hide ReadOnes, OldestUnread;
    UnreadIs(items, i);
    var a, x, b, c := items[..i], items[i], items[i + 1..q + 1], items[q + 1..];
    assert items[..q + 1] == a + [x] + b;
    assert rest[..q] == a + b && rest[q..] == c;
    ReadOnesWithout(a, x, b);
  }

  lemma UnreadIs(items: seq<Item>, i: nat)
    requires OldestUnread(items, i)
    ensures i < |items| && items[i].refs == 0
  {
  }

  /** Thinning up to the oldest unread item changes nothing. */
  lemma ThinnedNothing(items: seq<Item>, i: nat)
    requires i <= |items| && forall k :: 0 <= k < i ==> items[k].refs > 0
    ensures Thinned(items, i) == items
  {
    hide ReadOnes;
    AllRead(items[..i]);
    assert items[..i] + items[i..] == items;
  }

  /** The items cost no more than a bound, and are fewer than a cap if there is one. */
  predicate Enough(items: seq<Item>, bound: int, cap: Option<nat>)
  {
    Cost(items) <= bound && (cap.Some? ==> |items| < cap.value)
  }

  /** What was evicted: as many of the oldest unread items as it takes, and no more. */
  predicate LeastThinned(items: seq<Item>, to: seq<Item>, p: nat, bound: int, cap: Option<nat>)
  {
    && p <= |items| && to == Thinned(items, p)
    && (p > 0 ==> items[p - 1].refs == 0 && !Enough(Thinned(items, p - 1), bound, cap))
    && (Enough(to, bound, cap) || to == ReadOnes(items))
  }

  lemma ThinnedOnce(items: seq<Item>, rest: seq<Item>, to: seq<Item>, i: nat, q: nat, bound: int, cap: Option<nat>)
    requires OneGone(items, rest, i) && LeastThinned(rest, to, q, bound, cap) && !Enough(items, bound, cap)
    ensures LeastThinned(items, to, Max(q, i) + 1, bound, cap)
  {
    hide Thinned, ReadOnes, OldestUnread, Enough;
    UnreadIs(items, i);
    ReadAgain(items, i);
    BeforeIs(items, i, rest);
    if q == 0 {
      ThinnedNothing(rest, 0);
    } else {
      PastTheRead(items, i, rest, q - 1);
      ThinnedFurther(items, i, rest, q);
      if q > i { ThinnedFurther(items, i, rest, q - 1); }
    }
  }

  /** An item before the oldest unread one is read. */
  lemma PastTheRead(items: seq<Item>, i: nat, rest: seq<Item>, k: nat)
    requires OldestUnread(items, i) && rest == items[..i] + items[i + 1..] && k < |rest| && rest[k].refs == 0
    ensures k >= i
  {
  }

  /** Up to the oldest unread item thinning changes nothing, on either side of its eviction. */
  lemma BeforeIs(items: seq<Item>, i: nat, rest: seq<Item>)
    requires OldestUnread(items, i) && rest == items[..i] + items[i + 1..]
    ensures Thinned(items, i) == items && Thinned(items, i + 1) == rest && Thinned(rest, i) == rest
  {
    hide Thinned, ReadOnes;
    ThinnedNothing(items, i);
    ThinnedNothing(rest, i);
    ThinnedFurther(items, i, rest, i);
  }

  lemma ReadAgain(items: seq<Item>, i: nat)
    requires OldestUnread(items, i)
    ensures ReadOnes(items[..i] + items[i + 1..]) == ReadOnes(items)
  {
    hide ReadOnes, OldestUnread;
    UnreadIs(items, i);
    assert items == items[..i] + [items[i]] + items[i + 1..];
    ReadOnesWithout(items[..i], items[i], items[i + 1..]);
  }

  lemma ThinnedNone(items: seq<Item>, bound: int, cap: Option<nat>)
    requires Enough(items, bound, cap) || forall i :: 0 <= i < |items| ==> items[i].refs > 0
    ensures LeastThinned(items, items, 0, bound, cap)
  {
    hide ReadOnes, Thinned;
    ThinnedNothing(items, 0);
    if !Enough(items, bound, cap) { AllRead(items); }
  }

  /** Nothing but the items changed, with their account and the count of evictions. */
  predicate OnlyEvicted(s: Store, t: Store)
  {
    && t == s.(items := t.items, bytes := t.bytes, entries := t.entries, evictions := t.evictions)
    && t.bytes == Cost(t.items) && t.entries == |t.items| && t.evictions == s.evictions + |s.items| - |t.items|
  }

  lemma OneEvicted(s: Store)
    requires Account(s)
    ensures var (t, more) := EvictOne(s);
            && Account(t) && OnlyEvicted(s, t)
            && (!more ==> t == s && forall i :: 0 <= i < |s.items| ==> s.items[i].refs > 0)
            && (more ==> exists i: nat :: OneGone(s.items, t.items, i))
  {
    hide Account, AllSurvive, EvictOne;
    AccountIs(s, 0);
    EvictKeeps(s);
    EvictExactly(s);
    var (t, more) := EvictOne(s);
    AccountIs(t, 0);
    if more {
      var i: nat :| OldestUnread(s.items, i) && t.items == s.items[..i] + s.items[i + 1..];
      assert OneGone(s.items, t.items, i);
    }
  }

  /** The oldest unread item is gone. */
  predicate OneGone(items: seq<Item>, rest: seq<Item>, i: nat)
  {
    OldestUnread(items, i) && rest == items[..i] + items[i + 1..]
  }

  lemma OneFewer(items: seq<Item>, rest: seq<Item>, i: nat)
    requires OneGone(items, rest, i)
    ensures |rest| == |items| - 1
  {
  }

  lemma EvictedTwice(s: Store, t: Store, u: Store)
    requires OnlyEvicted(s, t) && OnlyEvicted(t, u)
    ensures OnlyEvicted(s, u)
  {
  }

  /** Room is made by evicting the oldest unread items, as few as it takes; it can be made exactly when the new
      item fits beside the items that are read. */
  lemma {:induction false} RoomExactly(s: Store, cost: nat) returns (p: nat)
    requires Account(s)
    ensures var (t, room) := MakeRoom(s, cost);
            && LeastThinned(s.items, t.items, p, s.limit - cost, Some(s.cap)) && Account(t) && OnlyEvicted(s, t)
            && (room <==> Enough(t.items, s.limit - cost, Some(s.cap)))
    decreases |s.items|
  {
    hide LeastThinned, EvictOne, Account, Enough, OneGone, OnlyEvicted;
    AccountIs(s, cost);
    OneEvicted(s);
    var (u, more) := EvictOne(s);
    var t := MakeRoom(s, cost).0;
    if Enough(s.items, s.limit - cost, Some(s.cap)) || !more {
      p := 0;
      ThinnedNone(s.items, s.limit - cost, Some(s.cap));
    } else {
      SameLimits(s, u);
      var i: nat :| OneGone(s.items, u.items, i);
      OneFewer(s.items, u.items, i);
      var q := RoomExactly(u, cost);
      ThinnedOnce(s.items, u.items, t.items, i, q, s.limit - cost, Some(s.cap));
      EvictedTwice(s, u, t);
      p := Max(q, i) + 1;
    }
  }

  lemma AccountIs(s: Store, cost: nat)
    requires Account(s)
    ensures s.bytes == Cost(s.items) && s.entries == |s.items| && OnlyEvicted(s, s)
    ensures Enough(s.items, s.limit - cost, Some(s.cap)) <==> cost + s.bytes <= s.limit && s.entries < s.cap
  {
  }

  lemma SameLimits(s: Store, u: Store)
    requires OnlyEvicted(s, u)
    ensures u.limit == s.limit && u.cap == s.cap
  {
  }

  /** Trimming evicts the oldest unread items, as few as it takes to come within the bytes. */
  lemma {:induction false} TrimExactly(s: Store, bytes: nat) returns (p: nat)
    requires Account(s)
    ensures LeastThinned(s.items, Trim(s, bytes).items, p, bytes, None) && OnlyEvicted(s, Trim(s, bytes))
    decreases |s.items|
  {
    hide LeastThinned, EvictOne, Account, OneGone, OnlyEvicted;
    AccountIs(s, 0);
    OneEvicted(s);
    var (u, more) := EvictOne(s);
    var t := Trim(s, bytes);
    if s.bytes <= bytes || !more {
      p := 0;
      ThinnedNone(s.items, bytes, None);
    } else {
      var i: nat :| OneGone(s.items, u.items, i);
      OneFewer(s.items, u.items, i);
      var q := TrimExactly(u, bytes);
      ThinnedOnce(s.items, u.items, t.items, i, q, bytes, None);
      EvictedTwice(s, u, t);
      p := Max(q, i) + 1;
    }
  }

  // ----- insertion -----

  /** Thinning leaves at least what is read, so room can be made exactly when the new item fits beside that. */
  lemma {:induction false} ReadOnesLeast(items: seq<Item>)
    ensures Cost(ReadOnes(items)) <= Cost(items) && ReadOnes(ReadOnes(items)) == ReadOnes(items)
  {
    if items != [] {
      var n := |items| - 1;
      ReadOnesLeast(items[..n]);
      var a := ReadOnes(items[..n]);
      if items[n].refs > 0 {
        SumsAppend(a, items[n]);
        ReadOnesConcat(a, [items[n]]);
        ReadOnesOne(items[n]);
      } else {
        assert ReadOnes(items) == a;
      }
    }
  }

  lemma {:induction false} CostConcat(a: seq<Item>, b: seq<Item>)
    ensures Cost(a + b) == Cost(a) + Cost(b)
  {
    if b == [] {
      assert a + b == a;
    } else {
      var n := |b| - 1;
      assert a + b == a + b[..n] + [b[n]];
      CostConcat(a, b[..n]);
      SumsAppend(a + b[..n], b[n]);
    }
  }

  lemma ThinnedLeast(items: seq<Item>, p: nat)
    requires p <= |items|
    ensures Cost(ReadOnes(items)) <= Cost(Thinned(items, p)) && |ReadOnes(items)| <= |Thinned(items, p)|
  {
    hide ReadOnes;
    assert items == items[..p] + items[p..];
    ReadOnesConcat(items[..p], items[p..]);
    CostConcat(ReadOnes(items[..p]), items[p..]);
    CostConcat(ReadOnes(items[..p]), ReadOnes(items[p..]));
    ReadOnesLeast(items[p..]);
  }

  lemma EnoughRead(items: seq<Item>, to: seq<Item>, p: nat, bound: int, cap: Option<nat>)
    requires LeastThinned(items, to, p, bound, cap)
    ensures Enough(to, bound, cap) <==> Enough(ReadOnes(items), bound, cap)
  {
    hide ReadOnes, Thinned;
    ThinnedLeast(items, p);
  }

  /** The new item is the newest, read by its one opener. */
  predicate AddedNewest(s: Store, t: Store, thinned: seq<Item>, id: nat, info: Info)
  {
    && t.items == thinned + [Item(id, info, 1, false)] && t.loose == s.loose - {id}
    && t == s.(items := t.items, loose := t.loose, bytes := t.bytes, entries := t.entries, evictions := t.evictions)
    && t.bytes == Cost(t.items) && t.entries == |t.items| && t.evictions == s.evictions + |s.items| - |thinned|
  }

  /** The items were thinned, and the new one was added if it then fits. */
  predicate Offered(s: Store, t: Store, thinned: seq<Item>, p: nat, id: nat, info: Info, keyed: bool)
  {
    && LeastThinned(s.items, thinned, p, s.limit - info.cost, Some(s.cap))
    && if keyed && Enough(ReadOnes(s.items), s.limit - info.cost, Some(s.cap)) then AddedNewest(s, t, thinned, id, info)
       else t.items == thinned && OnlyEvicted(s, t)
  }

  /** An open session enters the cache exactly when caching is on, for the cache and for the request, its key
      could be copied, and it fits beside the items that are read. For that the oldest unread items are evicted,
      as few as it takes; they are also gone when not even that makes room. */
  lemma InsertExactly(s: Store, id: nat, info: Info, noCache: bool, keyed: bool) returns (thinned: seq<Item>, p: nat)
    requires Inv(s)
    ensures var t := Insert(s, id, info, noCache, keyed);
            if noCache || s.limit == 0 || info.cost > s.limit then t == s else Offered(s, t, thinned, p, id, info, keyed)
  {
    hide Account, Kept, LeastThinned, MakeRoom, Enough, ReadOnes, OnlyEvicted, AddedNewest;
    p := RoomExactly(s, info.cost);
    var (r, room) := MakeRoom(s, info.cost);
    thinned := r.items;
    if !noCache && s.limit != 0 && info.cost <= s.limit {
      EnoughRead(s.items, r.items, p, s.limit - info.cost, Some(s.cap));
      if room && keyed { Added(s, r, id, info); }
    }
  }

  lemma Added(s: Store, r: Store, id: nat, info: Info)
    requires OnlyEvicted(s, r)
    ensures AddedNewest(s, r.(items := r.items + [Item(id, info, 1, false)], loose := r.loose - {id},
                              entries := r.entries + 1, bytes := r.bytes + info.cost), r.items, id, info)
  {
    hide Cost;
    SumsAppend(r.items, Item(id, info, 1, false));
  }

  // ----- dropping -----

  /** What a drop leaves: items of other sources as they were, and those of the source that are read, made invalid. */
  function Left(items: seq<Item>, key: Option<Key>): seq<Item>
  {
    if items == [] then []
    else
      var n := |items| - 1;
      var x := items[n];
      Left(items[..n], key)
      + if key.Some? && x.info.key != key.value then [x] else if x.refs == 0 then [] else [x.(invalidated := true)]
  }

  lemma {:induction false} LeftConcat(a: seq<Item>, b: seq<Item>, key: Option<Key>)
    ensures Left(a + b, key) == Left(a, key) + Left(b, key)
  {
    if b == [] {
      assert a + b == a;
    } else {
      var n := |b| - 1;
      assert (a + b)[..|a + b| - 1] == a + b[..n] && (a + b)[|a + b| - 1] == b[n];
      LeftConcat(a, b[..n], key);
    }
  }

  lemma LeftOne(x: Item, key: Option<Key>)
    ensures Left([x], key) == if key.Some? && x.info.key != key.value then [x] else if x.refs == 0 then [] else [x.(invalidated := true)]
  {
    assert [x][..0] == [];
  }

  /** The walk has dealt with the first i items. */
  lemma {:induction false} DropFromIs(s: Store, key: Option<Key>, i: nat)
    requires i <= |s.items|
    ensures DropFrom(s, key, i).items == s.items[..i] + Left(s.items[i..], key)
    ensures var t := DropFrom(s, key, i); t == s.(items := t.items, bytes := t.bytes, entries := t.entries)
    decreases |s.items| - i
  {
    hide Left;
    if i < |s.items| {
      var x := s.items[i];
      assert s.items[i..] == [x] + s.items[i + 1..];
      LeftConcat([x], s.items[i + 1..], key);
      LeftOne(x, key);
      DropStep(s, key, i);
    } else {
      assert s.items[..i] == s.items && s.items[i..] == [];
      LeftNone(key);
    }
  }

  lemma LeftNone(key: Option<Key>)
    ensures Left([], key) == []
  {
  }

  lemma DropStep(s: Store, key: Option<Key>, i: nat)
    requires i < |s.items|
    ensures var x := s.items[i];
            DropFrom(s, key, i).items
            == s.items[..i] + (if key.Some? && x.info.key != key.value then [x] else if x.refs == 0 then [] else [x.(invalidated := true)])
               + Left(s.items[i + 1..], key)
    ensures var t := DropFrom(s, key, i); t == s.(items := t.items, bytes := t.bytes, entries := t.entries)
    decreases |s.items| - i, 0
  {
    hide Left, DropFrom;
    var x, a, rest := s.items[i], s.items[..i], s.items[i + 1..];
    DropUnfolds(s, key, i);
    if key.Some? && key.value != x.info.key {
      DropFromIs(s, key, i + 1);
      assert s.items[..i + 1] == a + [x];
    } else if x.refs == 0 {
      RemovedItems(s, i);
      hide Remove;
      DropFromIs(Remove(s, i), key, i);
      SplitAt(a, rest);
    } else {
      var y := x.(invalidated := true);
      DropFromIs(s.(items := s.items[i := y]), key, i + 1);
      assert s.items[i := y] == (a + [y]) + rest;
      SplitAt(a + [y], rest);
    }
  }

  lemma RemovedItems(s: Store, i: nat)
    requires i < |s.items|
    ensures var t := Remove(s, i); t.items == s.items[..i] + s.items[i + 1..] && t == s.(items := t.items, bytes := t.bytes, entries := t.entries)
  {
  }

  lemma DropUnfolds(s: Store, key: Option<Key>, i: nat)
    requires i < |s.items|
    ensures var x := s.items[i];
            DropFrom(s, key, i) == DropFrom(if key.Some? && key.value != x.info.key then s else if x.refs == 0 then Remove(s, i)
                                            else s.(items := s.items[i := x.(invalidated := true)]),
                                            key, if (key.Some? && key.value != x.info.key) || x.refs > 0 then i + 1 else i)
  {
    hide Remove;
  }

  lemma SplitAt(a: seq<Item>, b: seq<Item>)
    ensures (a + b)[..|a|] == a && (a + b)[|a|..] == b
  {
  }

  /** A drop leaves exactly that, and changes nothing but the items and their account. */
  lemma DropExactly(s: Store, key: Option<Key>)
    requires Inv(s)
    ensures var t := Drop(s, key);
            && t.items == Left(s.items, key)
            && t == s.(items := t.items, bytes := Cost(t.items), entries := |t.items|)
  {
    hide Left, DropFrom, Kept;
    DropFromIs(s, key, 0);
    DropInv(s, key);
    assert s.items[0..] == s.items && s.items[..0] == [];
  }

  /** A new limit evicts the oldest unread items, as few as it takes to come within it; zero turns caching off, and
      leaves only the items that are read, invalid. */
  lemma SetLimitExactly(s: Store, bytes: u32) returns (p: nat)
    requires Inv(s)
    ensures var t := SetLimit(s, bytes);
            && t.limit == bytes && t.bytes == Cost(t.items) && t.entries == |t.items|
            && t == s.(limit := bytes, items := t.items, bytes := t.bytes, entries := t.entries, evictions := t.evictions)
            && if bytes == 0 then t.items == Left(s.items, None) && t.evictions == s.evictions
               else LeastThinned(s.items, t.items, p, bytes, None) && t.evictions == s.evictions + |s.items| - |t.items|
  {
    hide Left, DropFrom, Kept, Account, LeastThinned, Trim;
    var u := s.(limit := bytes);
    LimitFree(s, bytes);
    if bytes == 0 {
      ZeroDrop(s);
      p := TrimExactly(Drop(u, None), 0);
      assert Trim(Drop(u, None), 0).items == Drop(u, None).items by { NothingToTrim(Drop(u, None)); }
    } else {
      p := TrimExactly(u, bytes);
    }
  }

  lemma ZeroDrop(s: Store)
    requires Inv(s)
    ensures var u := s.(limit := 0); var t := Drop(u, None);
            && t.items == Left(s.items, None) && Account(t) && (forall i :: 0 <= i < |t.items| ==> t.items[i].refs > 0)
            && t == u.(items := t.items, bytes := Cost(t.items), entries := |t.items|)
  {
    hide Left, DropFrom;
    var u := s.(limit := 0);
    DropFromIs(u, None, 0);
    DropKeeps(u, None, 0);
    assert s.items[0..] == s.items && s.items[..0] == [];
    assert forall i :: 0 <= i < |Drop(u, None).items| ==> Dropped(Drop(u, None).items[i], None);
  }

  lemma NothingToTrim(s: Store)
    requires forall i :: 0 <= i < |s.items| ==> s.items[i].refs > 0
    ensures Trim(s, 0) == s
  {
  }

  // ----- closing -----

  /** A close ends one reader of the session and nothing else; at the last close an item that is invalid, or in a
      cache over its limit, leaves. An unknown session changes nothing. */
  lemma CloseExactly(s: Store, id: nat)
    requires Inv(s)
    ensures var t := Close(s, id);
            if id in s.loose then t == s.(loose := s.loose - {id}, open := t.open) && t.open + 1 == s.open
            else if exists i :: 0 <= i < |s.items| && s.items[i].id == id && s.items[i].refs > 0 then
              exists i: nat :: i < |s.items| && s.items[i].id == id && s.items[i].refs > 0 && t.open + 1 == s.open
                && t == s.(items := t.items, bytes := Cost(t.items), entries := |t.items|, open := t.open)
                && t.items == if s.items[i].refs == 1 && (s.items[i].invalidated || s.bytes > s.limit) then s.items[..i] + s.items[i + 1..]
                              else s.items[i := s.items[i].(refs := s.items[i].refs - 1)]
            else t == s
  {
    hide Kept;
    CloseKeeps(s, id);
    if id in s.loose {
      assert |s.loose| > 0 by { assert s.loose == (s.loose - {id}) + {id}; }
    } else {
      var i := Find(s.items, (x: Item) => x.id == id, 0);
      if i < |s.items| && s.items[i].refs > 0 {
        RefsCover(s.items, i);
        RefsUpdate(s.items, i, s.items[i].(refs := s.items[i].refs - 1));
        ClosedItems(s, id, i);
      }
    }
  }

  lemma ClosedItems(s: Store, id: nat, i: nat)
    requires Inv(s) && id !in s.loose && i == Find(s.items, (x: Item) => x.id == id, 0) && i < |s.items| && s.items[i].refs > 0
    ensures var t := Close(s, id);
            t.items == if s.items[i].refs == 1 && (s.items[i].invalidated || s.bytes > s.limit) then s.items[..i] + s.items[i + 1..]
                       else s.items[i := s.items[i].(refs := s.items[i].refs - 1)]
  {
    hide Inv;
    var x := s.items[i].(refs := s.items[i].refs - 1);
    var to := s.items[i := x];
    assert to[..i] + to[i + 1..] == s.items[..i] + s.items[i + 1..];
  }
}
