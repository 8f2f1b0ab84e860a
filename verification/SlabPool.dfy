/**
  SlabPool (include/SlabPool.h:119-152, 250-289, 329-476): fixed-size slots handed out through
  per-thread magazines, a shared list, and bump marks over the slab and the extents it grows by.
  Slots are numbered; each method is one call, whose shared part runs under the pool's mutex.
 */
module SlabPool {
  import opened SlabLists

  const Batch: nat := 32
  const GrowSlots: nat := 4096

  // The slab itself is region 0; the extents follow, oldest first.
  datatype Region = Region(base: nat, slots: nat, bumpNext: nat)

  predicate Full(r: Region) {
    r.bumpNext >= r.slots
  }

  datatype Cache = Cache(head: int, count: nat, gen: nat)

  predicate RegionOk(regions: seq<Region>, owner: seq<Owner>, r: nat)
    requires r < |regions|
  {
    var Region(base, slots, bumpNext) := regions[r];
    && bumpNext <= slots && base + slots <= |owner|
    && (r + 1 < |regions| ==> regions[r + 1].base == base + slots)
    && (forall x | base <= x < base + slots :: owner[x] == Raw <==> base + bumpNext <= x)
  }

  // The regions lie side by side, and a slot is raw exactly when it is beyond its region's bump mark.
  predicate RegionsOk(regions: seq<Region>, owner: seq<Owner>) {
    && regions != [] && regions[0].base == 0
    && (forall r | 0 <= r < |regions| :: RegionOk(regions, owner, r))
    && var last := regions[|regions| - 1]; last.base + last.slots == |owner|
  }

  predicate CacheOk(c: Cache, xs: seq<nat>, gen: nat) {
    if c.gen == gen then c.head == At(xs, 0) && c.count == |xs| <= 2 * Batch else xs == []
  }

  lemma {:induction false} BasesClimb(regions: seq<Region>, owner: seq<Owner>, a: nat, b: nat)
    requires RegionsOk(regions, owner) && a < b < |regions|
    ensures regions[a].base + regions[a].slots <= regions[b].base
  {
    assert RegionOk(regions, owner, b - 1);
    if a < b - 1 { BasesClimb(regions, owner, a, b - 1); }
  }

  // The slot at region r's bump mark is handed to list l, and the mark moves on.
  lemma BumpOk(regions: seq<Region>, owner: seq<Owner>, r: nat, l: nat)
    requires RegionsOk(regions, owner) && r < |regions| && regions[r].bumpNext < regions[r].slots
    ensures var x := regions[r].base + regions[r].bumpNext;
            && x < |owner| && owner[x] == Raw
            && RegionsOk(regions[r := regions[r].(bumpNext := regions[r].bumpNext + 1)], owner[x := In(l)])
  {
    assert RegionOk(regions, owner, r);
    var x := regions[r].base + regions[r].bumpNext;
    var regions' := regions[r := regions[r].(bumpNext := regions[r].bumpNext + 1)];
    var owner' := owner[x := In(l)];
    forall q | 0 <= q < |regions'| ensures RegionOk(regions', owner', q) {
      assert RegionOk(regions, owner, q);
      if q < r { BasesClimb(regions, owner, q, r); } else if r < q { BasesClimb(regions, owner, r, q); }
    }
  }

  // Slots change hands without one becoming raw or ceasing to be.
  lemma RegionsKept(regions: seq<Region>, owner: seq<Owner>, owner': seq<Owner>)
    requires RegionsOk(regions, owner) && |owner'| == |owner|
    requires forall x | 0 <= x < |owner| :: owner'[x] == Raw <==> owner[x] == Raw
    ensures RegionsOk(regions, owner')
  {
    forall r | 0 <= r < |regions| ensures RegionOk(regions, owner', r) {
      assert RegionOk(regions, owner, r);
      var Region(base, slots, bumpNext) := regions[r];
      forall x | base <= x < base + slots ensures owner'[x] == Raw <==> base + bumpNext <= x {
        assert owner'[x] == Raw <==> owner[x] == Raw;
      }
    }
  }

  lemma ExtendOk(regions: seq<Region>, owner: seq<Owner>, n: nat)
    requires RegionsOk(regions, owner)
    ensures RegionsOk(regions + [Region(|owner|, n, 0)], owner + seq(n, _ => Raw))
  {
    var regions', owner' := regions + [Region(|owner|, n, 0)], owner + seq(n, _ => Raw);
    forall r | 0 <= r < |regions'| ensures RegionOk(regions', owner', r) {
      if r < |regions| { assert RegionOk(regions, owner, r); }
    }
  }

  // The same slots are with callers; the slab may have grown.
  predicate SameTaken(before: seq<Owner>, owner: seq<Owner>) {
    |owner| >= |before| && forall x | 0 <= x < |before| :: owner[x] == Caller <==> before[x] == Caller
  }

  lemma SameTakenOn(a: seq<Owner>, b: seq<Owner>, c: seq<Owner>)
    requires SameTaken(a, b) && SameTaken(b, c)
    ensures SameTaken(a, c)
  {
    forall x | 0 <= x < |a| ensures c[x] == Caller <==> a[x] == Caller {
      assert b[x] == Caller <==> a[x] == Caller;
    }
  }

  // A slot goes to the front of a magazine; one that has grown past twice Batch keeps its last Batch slots.
  function Freed(lists: seq<seq<nat>>, l: nat, slot: nat): seq<seq<nat>>
    requires l < |lists|
  {
    var given := Given(lists, l, slot);
    if |given[l]| > 2 * Batch then Moved(given, l, 0, |given[l]| - Batch) else given
  }

  // What a refill takes: as much of a batch as the shared list has, then as much as the slab has; from an
  // extent only if both gave nothing and growth is on.
  predicate Gathered(before: seq<Region>, shared: seq<nat>, regions: seq<Region>, shared': seq<nat>, moved: nat, growth: bool)
  {
    && 0 < |before| <= |regions| && before[0].bumpNext <= before[0].slots
    && var first := Min(Batch, |shared|);
       var second := Min(Batch - first, before[0].slots - before[0].bumpNext);
       && shared' == shared[first..]
       && regions[0] == before[0].(bumpNext := before[0].bumpNext + second)
       && (first + second > 0 || !growth ==> moved == first + second && regions == before[0 := regions[0]])
  }

  class SlabPool {
    var links: seq<int>
    var regions: seq<Region>
    var sharedHead: int
    var caches: seq<Cache>
    const gen: nat
    ghost var owner: seq<Owner>
    ghost var lists: seq<seq<nat>>

    ghost predicate Valid()
      reads this
    {
      && |lists| == |caches| + 1 && ListsOk(links, owner, lists) && RegionsOk(regions, owner)
      && sharedHead == At(lists[0], 0)
      && forall t | 0 <= t < |caches| :: CacheOk(caches[t], lists[t + 1], gen)
    }

    // A lazy pool; the caches may still hold what they had from an earlier one.
    constructor (slots: nat, caches: seq<Cache>, gen: nat)
      requires forall t | 0 <= t < |caches| :: caches[t].gen < gen
      ensures Valid() && this.gen == gen && this.caches == caches
      ensures |owner| == slots && forall x | 0 <= x < slots :: owner[x] == Raw
    {
      links := seq(slots, _ => Nil);
      regions := [Region(0, slots, 0)];
      sharedHead := Nil;
      this.caches := caches;
      this.gen := gen;
      owner := seq(slots, _ => Raw);
      lists := seq(|caches| + 1, _ => []);
      new;
      assert forall l | 0 <= l < |lists| :: lists[l] == [];
      assert RegionOk(regions, owner, 0);
    }

    // cache(): thread t's magazine, emptied first if it belongs to an earlier pool.
    method Local(t: nat)
      requires Valid() && t < |caches|
      modifies this`caches
      ensures Valid() && caches[t].gen == gen
      ensures old(caches)[t].gen == gen ==> caches == old(caches)
      ensures old(caches)[t].gen != gen ==> lists[t + 1] == [] && caches == old(caches)[t := Cache(Nil, 0, gen)]
    {
      if caches[t].gen != gen { caches := caches[t := Cache(Nil, 0, gen)]; }
    }

    // The slot at region r's bump mark goes to the front of list l; the caller sets the list's head.
    method Bump(r: nat, ghost l: nat, head: int) returns (slot: nat)
      requires ListsOk(links, owner, lists) && RegionsOk(regions, owner) && l < |lists| && head == At(lists[l], 0)
      requires r < |regions| && regions[r].bumpNext < regions[r].slots
      modifies this`links, this`regions, this`owner, this`lists
      ensures ListsOk(links, owner, lists) && RegionsOk(regions, owner)
      ensures lists == Given(old(lists), l, slot) && |owner| == |old(owner)|
      ensures slot < |owner| && old(owner)[slot] == Raw && owner == old(owner)[slot := In(l)]
      ensures regions == old(regions)[r := old(regions)[r].(bumpNext := old(regions)[r].bumpNext + 1)]
    {
      BumpOk(regions, owner, r, l);
      slot := regions[r].base + regions[r].bumpNext;
      GiveOk(links, owner, lists, l, slot);
      links := links[slot := head];
      regions := regions[r := regions[r].(bumpNext := regions[r].bumpNext + 1)];
      owner := owner[slot := In(l)];
      lists := Given(lists, l, slot);
    }

    method Prefault(slots: nat)
      requires Valid()
      modifies this`links, this`regions, this`owner, this`lists, this`sharedHead
      ensures Valid() && SameTaken(old(owner), owner) && |owner| == |old(owner)|
      ensures var take := Min(slots, old(regions)[0].slots - old(regions)[0].bumpNext);
              regions[0].bumpNext == old(regions)[0].bumpNext + take && |lists[0]| == |old(lists)[0]| + take
    {
      assert RegionOk(regions, owner, 0);
      var take := Min(slots, regions[0].slots - regions[0].bumpNext);
      for k := 0 to take
        invariant Valid() && SameTaken(old(owner), owner) && |owner| == |old(owner)|
        invariant regions[0].slots == old(regions)[0].slots && regions[0].bumpNext == old(regions)[0].bumpNext + k
        invariant |lists[0]| == |old(lists)[0]| + k
      {
        sharedHead := Bump(0, 0, sharedHead);
      }
    }

    // In the middle of a refill of thread t's empty magazine: `moved` slots are on it, from `head`.
    ghost predicate Filling(t: nat, head: int, moved: nat)
      reads this
    {
      && |lists| == |caches| + 1 && ListsOk(links, owner, lists) && RegionsOk(regions, owner)
      && sharedHead == At(lists[0], 0) && t < |caches| && caches[t].gen == gen
      && (forall u | 0 <= u < |caches| && u != t :: CacheOk(caches[u], lists[u + 1], gen))
      && head == At(lists[t + 1], 0) && moved == |lists[t + 1]|
    }

    // Up to Batch slots off the front of the shared list.
    method FromShared(t: nat) returns (head: int, moved: nat)
      requires Filling(t, Nil, 0)
      modifies this`links, this`sharedHead, this`owner, this`lists
      ensures Filling(t, head, moved) && moved == Min(Batch, |old(lists)[0]|) && |owner| == |old(owner)|
      ensures SameTaken(old(owner), owner) && lists == Moved(old(lists), 0, t + 1, moved)
    {
      head, moved := sharedHead, 0;
      var curr, batchTail := sharedHead, Nil;
      ghost var xs := lists[0];
      while curr != Nil && moved < Batch
        invariant 0 <= moved <= Min(Batch, |xs|) && curr == At(xs, moved) && batchTail == At(xs, moved - 1)
        decreases |xs| - moved
      {
        assert Chain(links, xs) && NodeOk(links, xs, moved);
        batchTail := curr;
        curr := links[curr];
        moved := moved + 1;
      }
      if moved > 0 {
        MoveOk(links, owner, lists, 0, t + 1, moved);
        RegionsKept(regions, owner, Reassigned(owner, xs[..moved], t + 1)) by {
          assert Holds(owner, xs, 0);
          assert forall x | x in xs[..moved] :: x in xs;
        }
        links := links[batchTail := Nil];
        owner := Reassigned(owner, xs[..moved], t + 1);
        lists := Moved(lists, 0, t + 1, moved);
        sharedHead := curr;
        assert xs[..moved] + [] == xs[..moved];
        assert Holds(old(owner), xs, 0);
      } else {
        assert xs[..0] == [] && lists == Moved(lists, 0, t + 1, 0);
      }
    }

    // Up to `most` slots from region r's bump mark.
    method FromRegion(t: nat, r: nat, head: int, moved: nat, most: nat) returns (head': int, moved': nat)
      requires Filling(t, head, moved) && r < |regions|
      modifies this`links, this`regions, this`owner, this`lists
      ensures Filling(t, head', moved') && SameTaken(old(owner), owner) && |owner| == |old(owner)|
      ensures moved' == moved + Min(most, old(regions)[r].slots - old(regions)[r].bumpNext)
      ensures |regions| == |old(regions)| && lists[0] == old(lists)[0]
      ensures regions[r] == old(regions)[r].(bumpNext := old(regions)[r].bumpNext + moved' - moved)
      ensures forall q | 0 <= q < |regions| && q != r :: regions[q] == old(regions)[q]
    {
      assert RegionOk(regions, owner, r);
      var take := Min(most, regions[r].slots - regions[r].bumpNext);
      head', moved' := head, moved;
      for k := 0 to take
        invariant Filling(t, head', moved') && SameTaken(old(owner), owner) && |owner| == |old(owner)| && moved' == moved + k
        invariant |regions| == |old(regions)| && lists[0] == old(lists)[0]
        invariant regions[r] == old(regions)[r].(bumpNext := old(regions)[r].bumpNext + k)
        invariant forall q | 0 <= q < |regions| && q != r :: regions[q] == old(regions)[q]
      {
        head' := Bump(r, t + 1, head');
        moved' := moved' + 1;
      }
    }

    // The newest extent with room; a new one if there is none and memory for it.  0: no extent.
    method FindExtent(t: nat, head: int, moved: nat, gotMemory: bool) returns (r: nat)
      requires Filling(t, head, moved)
      modifies this`links, this`regions, this`owner
      ensures Filling(t, head, moved) && SameTaken(old(owner), owner) && |regions| >= |old(regions)|
      ensures r < |regions| && (r > 0 ==> !Full(regions[r])) && forall q | r < q < |regions| :: Full(regions[q])
      ensures r < |old(regions)| ==> regions == old(regions) && owner == old(owner) && (r == 0 ==> !gotMemory)
      ensures r >= |old(regions)| ==>
                && gotMemory && (forall q | 1 <= q < |old(regions)| :: Full(old(regions)[q]))
                && r == |old(regions)| && regions == old(regions) + [Region(|old(owner)|, GrowSlots, 0)]
                && owner == old(owner) + seq(GrowSlots, _ => Raw)
    {
      r := |regions| - 1;
      while r > 0 && regions[r].bumpNext >= regions[r].slots
        invariant r < |regions| && forall q | r < q < |regions| :: Full(regions[q])
      {
        r := r - 1;
      }
      if r == 0 && gotMemory {
        GrowOk(links, owner, lists, GrowSlots);
        ExtendOk(regions, owner, GrowSlots);
        r := |regions|;
        regions := regions + [Region(|links|, GrowSlots, 0)];
        links := links + seq(GrowSlots, _ => Nil);
        owner := owner + seq(GrowSlots, _ => Raw);
      }
    }

    /**
      Fills an empty magazine with at most Batch slots, none of them the caller's.  It stays empty
      only if the shared list is empty, the slab is used up, and it may not or cannot grow.
     */
    method Refill(t: nat, growth: bool, gotMemory: bool)
      requires Valid() && t < |caches| && caches[t].gen == gen && lists[t + 1] == []
      modifies this`links, this`regions, this`sharedHead, this`caches, this`owner, this`lists
      ensures Valid() && SameTaken(old(owner), owner) && |caches| == |old(caches)|
      ensures caches[t].gen == gen && caches[t].count <= Batch
      ensures forall u | 0 <= u < |caches| && u != t :: caches[u] == old(caches)[u]
      ensures caches[t].count == 0 && old(regions)[0].slots > 0 ==> lists[0] == [] && Full(regions[0])
      ensures caches[t].count == 0 && growth && old(regions)[0].slots > 0 ==>
                !gotMemory && forall r | 0 <= r < |regions| :: Full(regions[r])
      ensures old(regions)[0].slots > 0 ==> Gathered(old(regions), old(lists)[0], regions, lists[0], caches[t].count, growth)
      ensures old(regions)[0].slots == 0 ==> caches == old(caches) && lists == old(lists) && regions == old(regions)
      ensures !growth ==> |regions| == |old(regions)| && |owner| == |old(owner)|
    {
      if regions[0].slots == 0 { return; }
      var head, moved := Gather(t, growth, gotMemory);
      caches := caches[t := Cache(head, moved, gen)];
    }

    // The shared list, then the slab.
    method FromSlab(t: nat) returns (head: int, moved: nat)
      requires Filling(t, Nil, 0)
      modifies this`links, this`regions, this`sharedHead, this`owner, this`lists
      ensures Filling(t, head, moved) && SameTaken(old(owner), owner) && moved <= Batch && |owner| == |old(owner)|
      ensures moved == 0 ==> lists[0] == [] && Full(regions[0])
      ensures Gathered(old(regions), old(lists)[0], regions, lists[0], moved, false)
    {
      assert RegionOk(regions, owner, 0);
      head, moved := FromShared(t);
      ghost var before, mid, first := regions, owner, moved;
      if moved < Batch && regions[0].bumpNext < regions[0].slots {
        head, moved := FromRegion(t, 0, head, moved, Batch - moved);
        SameTakenOn(old(owner), mid, owner);
      }
      assert regions == before[0 := regions[0]];
    }

    // The part of a refill under the mutex: from the shared list, then the slab, then an extent.
    method Gather(t: nat, growth: bool, gotMemory: bool) returns (head: int, moved: nat)
      requires Filling(t, Nil, 0)
      modifies this`links, this`regions, this`sharedHead, this`owner, this`lists
      ensures Filling(t, head, moved) && SameTaken(old(owner), owner) && moved <= Batch
      ensures moved == 0 ==> lists[0] == [] && Full(regions[0])
      ensures moved == 0 && growth ==> !gotMemory && forall r | 0 <= r < |regions| :: Full(regions[r])
      ensures Gathered(old(regions), old(lists)[0], regions, lists[0], moved, growth)
      ensures !growth ==> |owner| == |old(owner)|
    {
      head, moved := FromSlab(t);
      if moved == 0 && growth {
        ghost var mid := owner;
        head, moved := FromExtent(t, gotMemory);
        SameTakenOn(old(owner), mid, owner);
      }
    }

    method FromExtent(t: nat, gotMemory: bool) returns (head: int, moved: nat)
      requires Filling(t, Nil, 0)
      modifies this`links, this`regions, this`owner, this`lists
      ensures Filling(t, head, moved) && SameTaken(old(owner), owner) && moved <= Batch
      ensures moved == 0 ==> !gotMemory && forall r | 1 <= r < |regions| :: Full(regions[r])
      ensures lists[0] == old(lists)[0] && |regions| >= |old(regions)| >= 1 && regions[0] == old(regions)[0]
      ensures if forall q | 1 <= q < |old(regions)| :: Full(old(regions)[q])
              then (if gotMemory then moved == Batch && |regions| == |old(regions)| + 1 else moved == 0 && regions == old(regions))
              else moved > 0 && |regions| == |old(regions)| && |owner| == |old(owner)|
    {
      head, moved := Nil, 0;
      var r := FindExtent(t, head, moved, gotMemory);
      if r > 0 {
        ghost var before := owner;
        head, moved := FromRegion(t, r, head, moved, Batch);
        SameTakenOn(old(owner), before, owner);
      }
    }

    /**
      The slot returned was in no caller's hands and is now in this one's; no other slot changes
      hands with a caller.  Nil only when there is nothing to hand out.
     */
    method Alloc(t: nat, growth: bool, gotMemory: bool) returns (slot: int)
      requires Valid() && t < |caches|
      modifies this`links, this`regions, this`sharedHead, this`caches, this`owner, this`lists
      ensures Valid() && |caches| == |old(caches)| && |owner| >= |old(owner)|
      ensures slot != Nil ==> 0 <= slot < |owner| && owner[slot] == Caller
                              && (slot < |old(owner)| ==> old(owner)[slot] != Caller)
      ensures forall x | 0 <= x < |old(owner)| && x != slot :: owner[x] == Caller <==> old(owner)[x] == Caller
      ensures slot == Nil && old(regions)[0].slots > 0 ==> lists[t + 1] == [] && lists[0] == [] && Full(regions[0])
      ensures slot == Nil && growth && old(regions)[0].slots > 0 ==>
                !gotMemory && forall r | 0 <= r < |regions| :: Full(regions[r])
      ensures t + 1 < |old(lists)|
      ensures old(lists)[t + 1] != [] ==>
                slot == old(lists)[t + 1][0] && lists == Taken(old(lists), t + 1) && regions == old(regions)
      ensures old(lists)[t + 1] == [] && old(regions)[0].slots > 0 ==>
                Gathered(old(regions), old(lists)[0], regions, lists[0], |lists[t + 1]| + (if slot == Nil then 0 else 1), growth)
      ensures old(lists)[t + 1] == [] && old(regions)[0].slots == 0 ==> slot == Nil && lists == old(lists)
      ensures !growth ==> |regions| == |old(regions)| && |owner| == |old(owner)|
    {
      Local(t);
      if caches[t].head == Nil { Refill(t, growth, gotMemory); }
      slot := caches[t].head;
      if slot == Nil { return; }
      HandOut(t, slot);
    }

    method HandOut(t: nat, slot: nat)
      requires Valid() && t < |caches| && caches[t].gen == gen && caches[t].head == slot
      modifies this`caches, this`owner, this`lists
      ensures Valid() && |caches| == |old(caches)| && slot < |owner| && old(owner)[slot] == In(t + 1)
      ensures owner == old(owner)[slot := Caller]
      ensures t + 1 < |old(lists)| && old(lists)[t + 1] != [] && old(lists)[t + 1][0] == slot && lists == Taken(old(lists), t + 1)
    {
      TakeOk(links, owner, lists, t + 1);
      RegionsKept(regions, owner, owner[slot := Caller]);
      caches := caches[t := Cache(links[slot], caches[t].count - 1, gen)];
      owner := owner[slot := Caller];
      lists := Taken(lists, t + 1);
    }

    // The front of an overfull magazine goes to the shared list; Batch slots stay.
    method Flush(t: nat)
      requires t < |caches| && Filling(t, caches[t].head, caches[t].count)
      modifies this`links, this`sharedHead, this`caches, this`owner, this`lists
      ensures |caches| == |old(caches)| && |owner| == |old(owner)| && SameTaken(old(owner), owner)
      ensures forall x | 0 <= x < |owner| :: owner[x].In? <==> old(owner)[x].In?
      ensures old(caches)[t].count > Batch ==>
                && Valid() && caches[t] == Cache(caches[t].head, Batch, gen)
                && |old(lists)[t + 1]| == old(caches)[t].count
                && lists == Moved(old(lists), t + 1, 0, old(caches)[t].count - Batch)
      ensures old(caches)[t].count <= Batch ==> lists == old(lists) && caches == old(caches)
      ensures forall u | 0 <= u < |caches| && u != t :: caches[u] == old(caches)[u]
    {
      if caches[t].count <= Batch { return; }
      var toMove := caches[t].count - Batch;
      var batchHead := caches[t].head;
      var batchTail := batchHead;
      ghost var xs := lists[t + 1];
      assert Chain(links, xs);
      for i := 1 to toMove
        invariant batchTail == At(xs, i - 1)
      {
        assert NodeOk(links, xs, i - 1);
        batchTail := links[batchTail];
      }
      assert NodeOk(links, xs, toMove - 1);
      MoveOk(links, owner, lists, t + 1, 0, toMove);
      assert Holds(owner, xs, t + 1);
      assert forall x | x in xs[..toMove] :: x in xs;
      RegionsKept(regions, owner, Reassigned(owner, xs[..toMove], 0));
      caches := caches[t := Cache(links[batchTail], Batch, gen)];
      links := links[batchTail := sharedHead];
      sharedHead := batchHead;
      owner := Reassigned(owner, xs[..toMove], 0);
      lists := Moved(lists, t + 1, 0, toMove);
    }

    /** The slot goes from the caller to thread t's magazine, which never keeps more than twice Batch. */
    method Free(t: nat, slot: nat)
      requires Valid() && t < |caches| && slot < |owner| && owner[slot] == Caller
      modifies this`links, this`sharedHead, this`caches, this`owner, this`lists
      ensures Valid() && |caches| == |old(caches)| && |owner| == |old(owner)|
      ensures owner[slot].In? && caches[t].gen == gen
      ensures forall x | 0 <= x < |owner| && x != slot :: owner[x] == Caller <==> old(owner)[x] == Caller
      ensures caches[t].count <= 2 * Batch
      ensures t + 1 < |old(lists)| && lists == Freed(old(lists), t + 1, slot)
    {
      Local(t);
      GiveOk(links, owner, lists, t + 1, slot);
      RegionsKept(regions, owner, owner[slot := In(t + 1)]);
      links := links[slot := caches[t].head];
      caches := caches[t := Cache(slot, caches[t].count + 1, gen)];
      owner := owner[slot := In(t + 1)];
      lists := Given(lists, t + 1, slot);
      if caches[t].count > 2 * Batch { Flush(t); }
    }

    /** Thread exit: a magazine of this pool comes home whole; one of an earlier pool is dropped. */
    method ThreadExit(t: nat)
      requires Valid() && t < |caches|
      modifies this`links, this`sharedHead, this`caches, this`owner, this`lists
      ensures Valid() && SameTaken(old(owner), owner) && |owner| == |old(owner)| && |caches| == |old(caches)|
      ensures lists[t + 1] == [] && lists[0] == old(lists)[t + 1] + old(lists)[0]
      ensures caches[t].head == Nil || caches[t] == old(caches)[t]
    {
      if caches[t].head == Nil { return; }
      if caches[t].gen == gen { GiveBack(t); }
      else { caches := caches[t := Cache(Nil, 0, caches[t].gen)]; }
    }

    method GiveBack(t: nat)
      requires Valid() && t < |caches| && caches[t].gen == gen && caches[t].head != Nil
      modifies this`links, this`sharedHead, this`caches, this`owner, this`lists
      ensures Valid() && SameTaken(old(owner), owner) && |owner| == |old(owner)| && |caches| == |old(caches)|
      ensures lists[t + 1] == [] && lists[0] == old(lists)[t + 1] + old(lists)[0] && caches[t].head == Nil
    {
      ghost var xs := lists[t + 1];
      var n := caches[t].count;
      var tail := caches[t].head;
      assert Chain(links, xs);
      for i := 1 to n
        invariant tail == At(xs, i - 1)
      {
        assert NodeOk(links, xs, i - 1);
        tail := links[tail];
      }
      MoveOk(links, owner, lists, t + 1, 0, n);
      assert Holds(owner, xs, t + 1) && xs[..n] == xs && xs[n..] == [];
      RegionsKept(regions, owner, Reassigned(owner, xs, 0));
      links := links[tail := sharedHead];
      sharedHead := caches[t].head;
      owner := Reassigned(owner, xs, 0);
      lists := Moved(lists, t + 1, 0, n);
      caches := caches[t := Cache(Nil, 0, gen)];
    }
  }

  function Min(a: int, b: int): int {
    if a < b then a else b
  }

  /** A slot is in exactly one place: with a caller, beyond a bump mark, or once on exactly one list. */
  lemma OnePlace(links: seq<int>, owner: seq<Owner>, lists: seq<seq<nat>>, x: nat, l: nat, m: nat, i: nat, j: nat)
    requires ListsOk(links, owner, lists) && x < |owner| && l < |lists| && m < |lists| && i < |lists[l]| && j < |lists[m]|
    requires lists[l][i] == x == lists[m][j]
    ensures l == m && i == j && owner[x] == In(l)
  {
    assert Holds(owner, lists[l], l) && Holds(owner, lists[m], m) && Chain(links, lists[l]);
    assert lists[l][i] in lists[l] && lists[m][j] in lists[m];
  }
}
