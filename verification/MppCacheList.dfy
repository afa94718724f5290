/** The cache as the decoder keeps it: sessions in an intrusive doubly linked list, updated in place. */
module MppCacheList {
  import opened Prelude
  import C = MppCache

  class Session {
    ghost const id: nat
    var older: Session?
    var newer: Session?
    var refs: nat
    var invalidated: bool
    var cached: bool
    var info: C.Info

    /** A decoded image with its one reader. */
    constructor (ghost id: nat, info: C.Info)
      ensures this.id == id && this.info == info && refs == 1 && !invalidated && !cached
    {
      this.id, this.info, refs, invalidated, cached, older, newer := id, info, 1, false, false, null, null;
    }

    ghost function Item(): C.Item
      reads this
    {
      C.Item(id, info, refs, invalidated)
    }
  }

  ghost function Items(l: seq<Session>): (r: seq<C.Item>)
    reads l
    ensures |r| == |l| && forall i :: 0 <= i < |r| ==> r[i] == l[i].Item()
  {
    if l == [] then [] else Items(l[..|l| - 1]) + [l[|l| - 1].Item()]
  }

  ghost function Ids(s: set<Session>): set<nat>
  {
    set x | x in s :: x.id
  }

  predicate AllDifferent(l: seq<Session>)
  {
    forall i, k :: 0 <= i < k < |l| ==> l[i] != l[k]
  }

  function Before(l: seq<Session>, i: int): Session?
  {
    if 0 < i <= |l| then l[i - 1] else null
  }

  function Behind(l: seq<Session>, i: int): Session?
  {
    if -1 <= i < |l| - 1 then l[i + 1] else null
  }

  ghost function Olders(l: seq<Session>): (r: seq<Session?>)
    reads l
    ensures |r| == |l| && forall i :: 0 <= i < |r| ==> r[i] == l[i].older
  {
    if l == [] then [] else Olders(l[..|l| - 1]) + [l[|l| - 1].older]
  }

  ghost function Newers(l: seq<Session>): (r: seq<Session?>)
    reads l
    ensures |r| == |l| && forall i :: 0 <= i < |r| ==> r[i] == l[i].newer
  {
    if l == [] then [] else Newers(l[..|l| - 1]) + [l[|l| - 1].newer]
  }

  /** The links a list has to have. */
  ghost predicate Chain(l: seq<Session>, olders: seq<Session?>, newers: seq<Session?>)
  {
    && AllDifferent(l) && |olders| == |newers| == |l|
    && (forall i :: 0 <= i < |l| ==> olders[i] == Before(l, i))
    && (forall i :: 0 <= i < |l| ==> newers[i] == Behind(l, i))
  }

  /** The links of a list and its two ends. */
  ghost predicate Linked(l: seq<Session>, oldest: Session?, newest: Session?)
    reads l
  {
    Chain(l, Olders(l), Newers(l)) && oldest == Behind(l, -1) && newest == Before(l, |l|)
  }

  /** Taking one member out of a chain: only its neighbours' links change. */
  lemma Unchained(l: seq<Session>, i: nat, olders: seq<Session?>, newers: seq<Session?>, to: seq<Session>, olders1: seq<Session?>, newers1: seq<Session?>)
    requires i < |l| && Chain(l, olders, newers) && to == l[..i] + l[i + 1..]
    requires |olders1| == |newers1| == |to|
    requires forall k :: 0 <= k < |to| ==> olders1[k] == olders[if k == i then i else if k < i then k else k + 1]
    requires forall k :: 0 <= k < |to| ==> newers1[k] == newers[if k == i - 1 then i else if k < i then k else k + 1]
    ensures Chain(to, olders1, newers1)
    ensures Behind(to, -1) == (if i == 0 then newers[i] else l[0]) && Before(to, |to|) == (if i == |l| - 1 then olders[i] else l[|l| - 1])
  {
    UnlinkedAt(l, i);
    hide AllDifferent;
    assert AllDifferent(to) by { StillDifferent(l, i); }
  }

  /** Adding a new last member to a chain: only the old last member's link changes. */
  lemma Chained(l: seq<Session>, s: Session, olders: seq<Session?>, newers: seq<Session?>, to: seq<Session>, olders1: seq<Session?>, newers1: seq<Session?>)
    requires Chain(l, olders, newers) && s !in l && to == l + [s] && |olders1| == |newers1| == |to|
    requires forall k :: 0 <= k < |l| ==> olders1[k] == olders[k]
    requires forall k :: 0 <= k < |l| - 1 ==> newers1[k] == newers[k]
    requires |l| > 0 ==> newers1[|l| - 1] == s
    requires olders1[|l|] == Before(l, |l|) && newers1[|l|] == null
    ensures Chain(to, olders1, newers1) && Before(to, |to|) == s && Behind(to, -1) == (if |l| == 0 then s else l[0])
  {
  }

  /** The neighbours of a member, each of them one member only. */
  lemma Neighbours(l: seq<Session>, i: nat, olders: seq<Session?>, newers: seq<Session?>)
    requires i < |l| && Chain(l, olders, newers)
    ensures if i == 0 then olders[i] == null else olders[i] == l[i - 1]
    ensures if i == |l| - 1 then newers[i] == null else newers[i] == l[i + 1]
    ensures forall k, m :: 0 <= k < |l| && 0 <= m < |l| && l[k] == l[m] ==> k == m
    ensures Behind(l, -1) == l[0] && Before(l, |l|) == l[|l| - 1]
  {
  }

  lemma NotInRest(l: seq<Session>, i: nat, oldest: Session?, newest: Session?)
    requires i < |l| && Linked(l, oldest, newest)
    ensures l[i] !in l[..i] + l[i + 1..] && forall x :: x in l[..i] + l[i + 1..] ==> x in l
  {
  }

  lemma LastOf(l: seq<Session>, olders: seq<Session?>, newers: seq<Session?>)
    requires Chain(l, olders, newers)
    ensures Before(l, |l|) == (if |l| == 0 then null else l[|l| - 1]) && (|l| > 0 ==> Behind(l, -1) == l[0])
    ensures forall k, m :: 0 <= k < |l| && 0 <= m < |l| && l[k] == l[m] ==> k == m
  {
  }

  /** Moving links changes no item. */
  twostate lemma ItemsKept(l: seq<Session>)
    requires forall x :: x in l ==> SameData(x)
    ensures Items(l) == old(Items(l))
  {
    hide Items;
    forall i | 0 <= i < |l| ensures Items(l)[i] == old(Items(l))[i] { assert SameData(l[i]); }
  }

  /** A session whose links may have moved but nothing else. */
  twostate predicate SameData(x: Session)
    reads x
  {
    x.refs == old(x.refs) && x.info == old(x.info) && x.invalidated == old(x.invalidated) && x.cached == old(x.cached)
  }

  lemma StillDifferent(l: seq<Session>, i: nat)
    requires i < |l| && AllDifferent(l)
    ensures AllDifferent(l[..i] + l[i + 1..])
  {
    UnlinkedAt(l, i);
  }

  lemma UnlinkedAt(l: seq<Session>, i: nat)
    requires i < |l|
    ensures var to := l[..i] + l[i + 1..];
            |to| == |l| - 1 && forall k :: 0 <= k < |to| ==> to[k] == l[if k < i then k else k + 1]
  {
  }

  /** Members are cached, sessions outside are not and have their one reader. */
  ghost predicate Marks(l: seq<Session>, loose: set<Session>)
    reads l, loose
  {
    && (forall x :: x in l ==> x.cached && x !in loose)
    && (forall x :: x in loose ==> !x.cached && x.refs == 1 && !x.invalidated)
    && (forall x, y :: x in loose && y in loose && x.id == y.id ==> x == y)
  }

  lemma Apart(l: seq<Session>, loose: set<Session>)
    requires Marks(l, loose)
    ensures forall x :: x in loose ==> x !in l
  {
  }

  class Cache {
    const cap: nat
    var oldest: Session?
    var newest: Session?
    var bytes: nat
    var entries: nat
    var limit: u32
    var hits: nat
    var misses: nat
    var evictions: nat
    var open: nat
    ghost var list: seq<Session>
    ghost var loose: set<Session>

    ghost function State(): C.Store
      reads this, list
    {
      C.Store(cap, Items(list), Ids(loose), bytes, entries, limit, hits, misses, evictions, open)
    }

    /** The list is well linked, its members are cached, and uncached sessions have their one reader. */
    ghost predicate Shape()
      reads this, list, loose
    {
      Linked(list, oldest, newest) && Marks(list, loose)
    }

    ghost predicate Valid()
      reads this, list, loose
    {
      Shape() && C.Inv(State())
    }

    constructor (cap: nat, limit: u32)
      ensures Valid() && State() == C.Created(cap, limit)
    {
      this.cap, oldest, newest, bytes, entries, this.limit := cap, null, null, 0, 0, limit;
      hits, misses, evictions, open, list, loose := 0, 0, 0, 0, [], {};
    }

    method Unlink(s: Session, ghost i: nat)
      requires Linked(list, oldest, newest) && i < |list| && list[i] == s
      modifies this`oldest, this`newest, this`list, list
      ensures list == old(list[..i] + list[i + 1..]) && Linked(list, oldest, newest)
      ensures forall x :: x in old(list) ==> SameData(x)
    {
      hide Olders, Newers, Items, Chain, AllDifferent, Before, Behind;
      ghost var was, olders, newers := list, Olders(list), Newers(list);
      Bypass(s, i);
      list := list[..i] + list[i + 1..];
      UnlinkedAt(was, i);
      Unchained(was, i, olders, newers, list, Olders(list), Newers(list));
    }

    /** The two neighbours, or the ends, now point past s. */
    method Bypass(s: Session, ghost i: nat)
      requires Linked(list, oldest, newest) && i < |list| && list[i] == s
      modifies this`oldest, this`newest, list
      ensures forall k :: 0 <= k < |list| ==> list[k].older == if k == i + 1 then old(Olders(list))[i] else old(Olders(list))[k]
      ensures forall k :: 0 <= k < |list| ==> list[k].newer == if k == i - 1 then old(Newers(list))[i] else old(Newers(list))[k]
      ensures oldest == (if i == 0 then old(Newers(list))[i] else list[0])
      ensures newest == (if i == |list| - 1 then old(Olders(list))[i] else list[|list| - 1])
      ensures forall x :: x in list ==> SameData(x)
    {
      hide Olders, Newers, Items, Chain, AllDifferent, Before, Behind;
      Neighbours(list, i, Olders(list), Newers(list));
      PointBack(s.older, s.newer);
      PointOn(s.newer, s.older);
    }

    /** Let the older neighbour, or the head, point to the newer one. */
    method PointBack(a: Session?, b: Session?)
      modifies this`oldest, a
      ensures a == null ==> oldest == b
      ensures a != null ==> oldest == old(oldest) && a.newer == b && a.older == old(a.older) && SameData(a)
    {
      if a != null { a.newer := b; } else { oldest := b; }
    }

    /** Let the newer neighbour, or the tail, point to the older one. */
    method PointOn(a: Session?, b: Session?)
      modifies this`newest, a
      ensures a == null ==> newest == b
      ensures a != null ==> newest == old(newest) && a.older == b && a.newer == old(a.newer) && SameData(a)
    {
      if a != null { a.older := b; } else { newest := b; }
    }

    method MakeNewest(s: Session)
      requires Linked(list, oldest, newest) && s !in list
      modifies this`oldest, this`newest, this`list, s`older, s`newer, list
      ensures list == old(list) + [s] && Linked(list, oldest, newest)
      ensures forall x :: x in list ==> SameData(x)
    {
      hide Olders, Newers, Items, Chain, AllDifferent, Before, Behind;
      ghost var was, olders, newers := list, Olders(list), Newers(list);
      LastOf(was, olders, newers);
      s.newer, s.older := null, newest;
      PointBack(newest, s);
      newest := s;
      list := list + [s];
      Chained(was, s, olders, newers, list, Olders(list), Newers(list));
    }

    /** Unlink, seen on the items. */
    method TakeOut(s: Session, ghost i: nat)
      requires Linked(list, oldest, newest) && i < |list| && list[i] == s
      modifies this`oldest, this`newest, this`list, list
      ensures list == old(list[..i] + list[i + 1..]) && Linked(list, oldest, newest) && s !in list
      ensures Items(list) == C.Without(old(Items(list)), i)
      ensures forall x :: x in old(list) ==> SameData(x)
      ensures forall x :: x in list ==> x in old(list)
    {
      hide Olders, Newers, Items, Linked;
      ghost var was, items := list, Items(list);
      NotInRest(was, i, oldest, newest);
      UnlinkedAt(was, i);
      Unlink(s, i);
      ItemsKept(was);
      C.WithoutAt(items, i);
    }

    /** Unlink, keeping the marks of the rest. */
    method TakeMember(s: Session, ghost i: nat)
      requires Shape() && i < |list| && list[i] == s
      modifies this`oldest, this`newest, this`list, list
      ensures Shape() && list == old(list[..i] + list[i + 1..]) && s !in list && s !in loose && s.Item() == old(s.Item())
      ensures Items(list) == C.Without(old(Items(list)), i)
      ensures forall x :: x in list ==> x in old(list)
    {
      hide Olders, Newers, Items, Linked, C.Without;
      ghost var was := list;
      Apart(was, loose);
      assert s in was;
      TakeOut(s, i);
    }

    /** Unlink and free. */
    method RemoveSession(s: Session, ghost i: nat)
      requires Shape() && i < |list| && list[i] == s && s.info.cost <= bytes && entries > 0
      modifies this`oldest, this`newest, this`list, this`bytes, this`entries, list
      ensures Shape() && State() == C.Remove(old(State()), i) && list == old(list[..i] + list[i + 1..])
      ensures forall x :: x in list ==> x in old(list)
    {
      hide Olders, Newers, Items, Linked, C.Without, Marks;
      assert Items(list)[i].info == s.info;
      TakeMember(s, i);
      Forget(s);
    }

    method Forget(s: Session)
      requires Shape() && s !in list && s !in loose && s.info.cost <= bytes && entries > 0
      modifies this`bytes, this`entries, s`cached
      ensures Shape() && State() == old(State()).(bytes := old(bytes) - s.info.cost, entries := old(entries) - 1)
    {
      hide Olders, Newers, Items, Linked;
      bytes, entries := bytes - s.info.cost, entries - 1;
      s.cached := false;
    }

    /** Walk from the oldest to the first session nobody reads. */
    method OldestUnread() returns (s: Session?, ghost i: nat)
      requires Shape()
      ensures i == Find(Items(list), C.Unreferenced(), 0) && s == Behind(list, i - 1) && i <= |list|
    {
      hide Olders, Newers, Items, Linked, Marks;
      s, i := oldest, 0;
      Ends(list, oldest, newest);
      while s != null && s.refs != 0
        invariant i <= |list| && s == Behind(list, i - 1)
        invariant forall k :: 0 <= k < i ==> list[k].refs != 0
        decreases |list| - i
        modifies {}
      {
        Links(list, oldest, newest, i);
        s := s.newer;
        i := i + 1;
      }
      FindIs(Items(list), C.Unreferenced(), i, 0);
    }

    /** Evict the oldest session nobody reads. */
    method EvictOldest() returns (ok: bool)
      requires Shape() && C.Account(State())
      modifies this`oldest, this`newest, this`list, this`bytes, this`entries, this`evictions, list
      ensures Shape() && (State(), ok) == C.EvictOne(old(State()))
      ensures forall x :: x in list ==> x in old(list)
    {
      hide Olders, Newers, Items, Linked, Marks, C.Account, C.Without, C.Remove, Find;
      var s: Session?;
      ghost var i: nat;
      s, i := OldestUnread();
      if s == null { return false; }
      C.AccountCovers(State(), i);
      RemoveSession(s, i);
      evictions := evictions + 1;
      ok := true;
    }

    /** Evict until the bytes fit or nothing more can go. */
    method TrimTo(max: nat)
      requires Shape() && C.Account(State())
      modifies this, list
      ensures Shape() && State() == C.Trim(old(State()), max) && loose == old(loose) && (forall x :: x in list ==> x in old(list))
    {
      hide Olders, Newers, Items, Linked, Marks, C.Account, C.EvictOne;
      var more := true;
      while bytes > max && more
        invariant Shape() && C.Account(State()) && loose == old(loose) && forall x :: x in list ==> x in old(list)
        invariant if more then C.Trim(State(), max) == C.Trim(old(State()), max) else State() == C.Trim(old(State()), max)
        decreases |list|, more
      {
        C.EvictKeeps(State());
        assert forall i :: 0 <= i < |list| ==> list[i] in old(list);
        more := EvictOldest();
      }
    }

    /** The shape depends on links, marks and readers only. */
    twostate lemma ShapeKept()
      requires oldest == old(oldest) && newest == old(newest) && list == old(list) && loose == old(loose)
      requires forall x :: x in list || x in loose ==> SameLinks(x) && SameMarks(x)
      requires forall x :: x in loose ==> SameData(x)
      ensures old(Shape()) ==> Shape()
    {
      hide Olders, Newers;
      forall i | 0 <= i < |list| ensures Olders(list)[i] == old(Olders(list)[i]) && Newers(list)[i] == old(Newers(list)[i]) {
        assert SameLinks(list[i]);
      }
      assert Olders(list) == old(Olders(list)) && Newers(list) == old(Newers(list));
    }

    method MarkInvalid(s: Session, ghost i: nat)
      requires Shape() && i < |list| && list[i] == s
      modifies s`invalidated
      ensures Shape() && State() == old(State()).(items := old(Items(list))[i := s.Item()]) && s.invalidated
      ensures s.Item() == old(s.Item()).(invalidated := true) && s.newer == old(s.newer)
    {
      hide Olders, Newers, Items, Linked, Marks;
      LinkedDifferent(list, oldest, newest);
      Apart(list, loose);
      s.invalidated := true;
      ShapeKept();
      assert Items(list) == old(Items(list))[i := s.Item()];
    }

    /** Mark a session and free it if nobody reads it; it keeps its place otherwise. */
    method DropMatching(s: Session, ghost i: nat) returns (ghost removed: bool)
      requires Shape() && C.Account(State()) && i < |list| && list[i] == s
      modifies this`oldest, this`newest, this`list, this`bytes, this`entries, list
      ensures Shape() && C.Account(State()) && (forall x :: x in list ==> x in old(list)) && removed == (old(s.refs) == 0)
      ensures if removed then State() == C.Remove(old(State()), i) && list == old(list[..i] + list[i + 1..])
              else State() == old(State()).(items := old(Items(list))[i := old(s.Item()).(invalidated := true)]) && list == old(list)
    {
      hide Olders, Newers, Items, Linked, Marks, C.Account, C.Without;
      ghost var items := Items(list);
      assert items[i] == s.Item();
      C.MarkedAccount(State(), i);
      ghost var was := State();
      MarkInvalid(s, i);
      removed := s.refs == 0;
      if s.refs == 0 {
        C.AccountCovers(was, i);
        C.RemoveKeeps(was, i);
        C.RemoveMarked(items, i);
        RemoveSession(s, i);
      }
    }

    /** One step of dropping; the result is the place of the session that was newer than s. */
    method DropOne(s: Session, key: Option<C.Key>, ghost i: nat) returns (ghost j: nat)
      requires Shape() && C.Account(State()) && i < |list| && list[i] == s
      modifies this`oldest, this`newest, this`list, this`bytes, this`entries, list
      ensures Shape() && C.Account(State()) && (forall x :: x in list ==> x in old(list))
      ensures C.DropFrom(State(), key, j) == C.DropFrom(old(State()), key, i)
      ensures j <= |list| && |list| - j < old(|list|) - i && Behind(list, j - 1) == old(s.newer)
    {
      hide Olders, Newers, Items, Linked, Marks, C.Account, C.Remove;
      Links(list, oldest, newest, i);
      assert Items(list)[i] == s.Item();
      UnlinkedAt(list, i);
      j := i + 1;
      if key.None? || key.value == s.info.key {
        ghost var removed := DropMatching(s, i);
        j := if removed then i else i + 1;
      }
    }

    /** Invalidate the sessions of a source (of all without one); free those nobody reads. */
    method DropLocked(key: Option<C.Key>)
      requires Shape() && C.Account(State())
      modifies this, list
      ensures Shape() && State() == C.Drop(old(State()), key) && loose == old(loose) && (forall x :: x in list ==> x in old(list))
    {
      hide Olders, Newers, Items, Linked, Marks, C.Account, C.Without;
      var s := oldest;
      ghost var i: nat := 0;
      Ends(list, oldest, newest);
      while s != null
        invariant Shape() && C.Account(State()) && loose == old(loose) && forall x :: x in list ==> x in old(list)
        invariant i <= |list| && s == Behind(list, i - 1)
        invariant C.DropFrom(State(), key, i) == C.DropFrom(old(State()), key, 0)
        decreases |list| - i
      {
        assert forall k :: 0 <= k < |list| ==> list[k] in old(list);
        var next := s.newer;
        i := DropOne(s, key, i);
        s := next;
      }
    }

    method SetLimit(max: u32)
      requires Valid()
      modifies this, list
      ensures Valid() && State() == C.SetLimit(old(State()), max)
    {
      hide Olders, Newers, Items, Linked, Marks, C.Account, C.Kept, C.DropFrom, C.Trim;
      C.SetLimitKeeps(State(), max);
      C.LimitFree(State(), max);
      ghost var was := State();
      limit := max;
      if max == 0 {
        C.ZeroLimitAccount(was);
        DropLocked(None);
      }
      assert forall i :: 0 <= i < |list| ==> list[i] in old(list);
      TrimTo(max);
    }

    /** Walk from the newest to the first session that serves. */
    method NewestServing(key: C.Key, args: C.Args) returns (s: Session?, ghost r: nat)
      requires Shape()
      ensures r == C.FindNewest(Items(list), key, args, |list|) && s == Before(list, r) && r <= |list|
    {
      hide Olders, Newers, Items, Linked, Marks;
      s, r := newest, |list|;
      Ends(list, oldest, newest);
      while s != null && !(!s.invalidated && s.info.key == key && C.Compatible(s.info, args))
        invariant r <= |list| && s == Before(list, r)
        invariant C.FindNewest(Items(list), key, args, r) == C.FindNewest(Items(list), key, args, |list|)
        decreases r
        modifies {}
      {
        Links(list, oldest, newest, r - 1);
        assert Items(list)[r - 1] == s.Item();
        s := s.older;
        r := r - 1;
      }
      if s != null { assert Items(list)[r - 1] == s.Item(); }
    }

    /** Another reader, and the newest place. */
    method Promote(s: Session, ghost i: nat)
      requires Shape() && i < |list| && list[i] == s
      modifies this`oldest, this`newest, this`list, list
      ensures Shape() && loose == old(loose)
      ensures Items(list) == C.Without(old(Items(list)), i) + [old(s.Item()).(refs := old(s.refs) + 1)]
      ensures s in list && forall x :: x in list ==> x in old(list)
    {
      hide Olders, Newers, Items, Linked, C.Without;
      var readers := s.refs + 1;
      TakeMember(s, i);
      AddNewest(s, readers);
    }

    /** A session becomes the newest member with some readers. */
    method AddNewest(s: Session, readers: nat)
      requires Shape() && s !in list && s !in loose
      modifies this`oldest, this`newest, this`list, s, list
      ensures Shape() && list == old(list) + [s]
      ensures Items(list) == old(Items(list)) + [old(s.Item()).(refs := readers)]
    {
      hide Olders, Newers, Linked;
      s.refs, s.cached := readers, true;
      ghost var was := list;
      MakeNewest(s);
      ItemsKept(was);
      assert list[..|list| - 1] == was;
    }

    /** Serve a cached session to one more reader. */
    method Serve(s: Session, ghost i: nat)
      requires Shape() && i < |list| && list[i] == s
      modifies this`oldest, this`newest, this`list, this`open, this`hits, list
      ensures Shape() && s in list && (forall x :: x in list ==> x in old(list)) && s.id == old(Items(list))[i].id
      ensures var x := old(Items(list))[i];
              State() == old(State()).(items := C.Without(old(Items(list)), i) + [x.(refs := x.refs + 1)],
                                       hits := old(hits) + 1, open := old(open) + 1)
    {
      hide Olders, Newers, Items, Linked, Marks, C.Without;
      assert Items(list)[i] == s.Item();
      Promote(s, i);
      open, hits := open + 1, hits + 1;
    }

    method Lookup(key: C.Key, args: C.Args, noCache: bool) returns (hit: Session?)
      requires Valid()
      modifies this, list
      ensures Valid() && loose == old(loose)
      ensures (State(), if hit == null then None else Some(hit.id)) == C.Acquire(old(State()), key, args, noCache)
      ensures hit != null ==> hit in list
      ensures forall x :: x in list ==> x in old(list)
    {
      hide Items, Linked, Marks, C.Inv, C.Acquire;
      C.AcquireKeeps(State(), key, args, noCache);
      C.AcquireOff(State(), key, args);
      if noCache || limit == 0 { return null; }
      hit := LookupOn(key, args);
    }

    method LookupOn(key: C.Key, args: C.Args) returns (hit: Session?)
      requires Shape() && limit != 0
      modifies this, list
      ensures Shape() && loose == old(loose)
      ensures (State(), if hit == null then None else Some(hit.id)) == C.Acquire(old(State()), key, args, false)
      ensures hit != null ==> hit in list
      ensures forall x :: x in list ==> x in old(list)
    {
      hide Olders, Newers, Items, Linked, Marks, C.Without, C.FindNewest, C.Acquire, Ids;
      C.LookupIs(State(), key, args);
      ghost var r: nat;
      hit, r := NewestServing(key, args);
      if hit == null {
        misses := misses + 1;
        return;
      }
      Serve(hit, r - 1);
    }

    /** Evict until a new session fits. */
    method RoomFor(cost: nat) returns (room: bool)
      requires Shape() && C.Account(State())
      modifies this, list
      ensures Shape() && (State(), room) == C.MakeRoom(old(State()), cost) && loose == old(loose) && (forall x :: x in list ==> x in old(list))
    {
      hide Olders, Newers, Items, Linked, Marks, C.Account, C.EvictOne;
      room := true;
      while room && (cost + bytes > limit || entries >= cap)
        invariant Shape() && C.Account(State()) && loose == old(loose) && forall x :: x in list ==> x in old(list)
        invariant if room then C.MakeRoom(State(), cost) == C.MakeRoom(old(State()), cost)
                  else (State(), false) == C.MakeRoom(old(State()), cost)
        decreases |list|, room
      {
        C.EvictKeeps(State());
        assert forall i :: 0 <= i < |list| ==> list[i] in old(list);
        room := EvictOldest();
      }
    }

    /** The session leaves the uncached ones and becomes the newest member. */
    method Enlist(s: Session)
      requires Shape() && s in loose && s !in list
      modifies this, s, list
      ensures Shape()
      ensures State() == old(State()).(items := old(Items(list)) + [C.Item(s.id, old(s.info), 1, false)], loose := old(Ids(loose)) - {s.id},
                                       entries := old(entries) + 1, bytes := old(bytes) + old(s.info.cost))
    {
      hide Olders, Newers, Items, Linked, Ids;
      assert s.Item() == C.Item(s.id, s.info, 1, false);
      IdsLess(loose, s);
      var cost := s.info.cost;
      loose := loose - {s};
      AddNewest(s, s.refs);
      entries, bytes := entries + 1, bytes + cost;
    }

    method InsertSession(s: Session, noCache: bool, keyed: bool)
      requires Shape() && C.Account(State()) && s in loose && s !in list
      modifies this, s, list
      ensures Shape() && State() == C.Insert(old(State()), s.id, old(s.info), noCache, keyed)
    {
      hide Olders, Newers, Items, Linked, Marks, C.Account, C.MakeRoom, C.Insert, Ids;
      C.InsertIs(State(), s.id, s.info, noCache, keyed);
      if noCache || limit == 0 || s.info.cost > limit { return; }
      ghost var info := s.info;
      var room := RoomFor(s.info.cost);
      assert s.info == info && s in loose && s !in list;
      if room && keyed {
        assert forall i :: 0 <= i < |list| ==> list[i] in old(list);
        Enlist(s);
      }
    }

    /** Open an image: a cached session, or a fresh decode offered to the cache; nothing if the decode fails. */
    method OpenImage(ghost id: nat, key: C.Key, args: C.Args, noCache: bool, decoded: Option<C.Info>, keyed: bool) returns (s: Session?)
      requires Valid() && C.Unknown(State(), id)
      modifies this, list
      ensures Valid()
      ensures (State(), if s == null then None else Some(s.id)) == C.Open(old(State()), id, key, args, noCache, decoded, keyed)
    {
      hide Olders, Newers, Items, Linked, Marks, C.Inv, C.Acquire, C.Insert, C.Unknown, C.Open, C.WithLoose, Ids;
      ghost var was := State();
      C.OpenKeeps(was, id, key, args, noCache, decoded, keyed);
      C.OpenIs(was, id, key, args, noCache, decoded, keyed);
      s := Lookup(key, args, noCache);
      if s != null || decoded.None? { return; }
      C.AcquireKeeps(was, key, args, noCache);
      C.UnknownStill(was, State(), id);
      assert forall i :: 0 <= i < |list| ==> list[i] in old(list);
      s := AddDecoded(id, decoded.value.(key := key, args := args), noCache, keyed);
    }

    /** A fresh session with its one reader, offered to the cache. */
    method AddDecoded(ghost id: nat, info: C.Info, noCache: bool, keyed: bool) returns (s: Session)
      requires Valid() && C.Unknown(State(), id)
      modifies this, list
      ensures Shape() && s.id == id
      ensures State() == C.Insert(C.WithLoose(old(State()), id), id, info, noCache, keyed)
    {
      hide Olders, Newers, Items, Linked, Marks, C.Insert, C.Inv, C.Unknown, C.WithLoose;
      C.LooseKeeps(State(), id);
      C.InvAccount(C.WithLoose(State(), id));
      s := AddLoose(id, info);
      InsertSession(s, noCache, keyed);
    }

    method AddLoose(ghost id: nat, info: C.Info) returns (s: Session)
      requires Shape() && C.Unknown(State(), id)
      modifies this`loose, this`open
      ensures Shape() && fresh(s) && s.id == id && s.info == info && s in loose && s !in list && list == old(list)
      ensures State() == C.WithLoose(old(State()), id)
    {
      hide Olders, Newers, Items, Linked;
      s := new Session(id, info);
      IdsMore(loose, s);
      loose := loose + {s};
      open := open + 1;
    }

    /** The session is closed by one reader. */
    method CloseImage(s: Session, ghost i: nat)
      requires Valid() && (s in loose || (i < |list| && list[i] == s && s.refs > 0)) && open > 0
      modifies this, s, list
      ensures Valid() && State() == C.Close(old(State()), s.id)
    {
      hide Olders, Newers, Items, Linked, C.Inv, C.Close;
      C.CloseKeeps(State(), s.id);
      C.InvAccount(State());
      if s.cached { CloseCached(s, i); } else { CloseLoose(s); }
    }

    method CloseLoose(s: Session)
      requires Shape() && s in loose && open > 0
      modifies this`open, this`loose, s`refs
      ensures Shape() && State() == C.Close(old(State()), s.id)
    {
      hide Olders, Newers, Items, Linked;
      IdsLess(loose, s);
      open := open - 1;
      loose := loose - {s};
      s.refs := s.refs - 1;
    }

    method CloseCached(s: Session, ghost i: nat)
      requires Shape() && C.Account(State()) && i < |list| && list[i] == s && s.refs > 0 && open > 0
      modifies this, list
      ensures Shape() && State() == C.Close(old(State()), s.id)
    {
      hide Olders, Newers, Items, Linked, Marks, C.Account, C.Without;
      ghost var was := State();
      assert Items(list)[i] == s.Item();
      C.ReaderLess(was, i);
      C.OnlyOne(was, i);
      C.IdNotLoose(was, i);
      FindIs(was.items, (x: C.Item) => x.id == s.id, i, 0);
      OneLess(s, i);
      if s.refs == 0 && (s.invalidated || bytes > limit) {
        C.AccountCovers(State(), i);
        RemoveSession(s, i);
      }
    }

    method OneLess(s: Session, ghost i: nat)
      requires Shape() && i < |list| && list[i] == s && s.refs > 0 && open > 0
      modifies this`open, s`refs
      ensures Shape() && s.refs == old(s.refs) - 1
      ensures State() == old(State()).(items := old(Items(list))[i := old(s.Item()).(refs := old(s.refs) - 1)], open := old(open) - 1)
    {
      hide Olders, Newers, Items, Linked, Marks;
      LinkedDifferent(list, oldest, newest);
      Apart(list, loose);
      s.refs := s.refs - 1;
      open := open - 1;
      ShapeKept();
      assert Items(list) == old(Items(list))[i := s.Item()];
    }
  }

  lemma IdsMore(loose: set<Session>, s: Session)
    ensures Ids(loose + {s}) == Ids(loose) + {s.id}
  {
  }

  lemma IdsLess(loose: set<Session>, s: Session)
    requires s in loose && forall x, y :: x in loose && y in loose && x.id == y.id ==> x == y
    ensures Ids(loose - {s}) == Ids(loose) - {s.id}
  {
  }

  twostate predicate SameLinks(x: Session)
    reads x
  {
    x.older == old(x.older) && x.newer == old(x.newer)
  }

  twostate predicate SameMarks(x: Session)
    reads x
  {
    x.cached == old(x.cached)
  }

  lemma Ends(l: seq<Session>, oldest: Session?, newest: Session?)
    requires Linked(l, oldest, newest)
    ensures oldest == Behind(l, -1) && newest == Before(l, |l|)
  {
  }

  lemma Links(l: seq<Session>, oldest: Session?, newest: Session?, i: nat)
    requires Linked(l, oldest, newest) && i < |l|
    ensures l[i].older == Before(l, i) && l[i].newer == Behind(l, i)
  {
    hide Olders, Newers;
  }

  lemma LinkedDifferent(l: seq<Session>, oldest: Session?, newest: Session?)
    requires Linked(l, oldest, newest)
    ensures AllDifferent(l)
  {
  }
}
