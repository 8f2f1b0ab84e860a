/**
  The free lists of a slab (include/SlabPool.h): intrusive, each slot holding the next.  List 0 is
  the shared list; list t + 1 is thread t's magazine.  `owner` says where each slot is.
 */
module SlabLists {

  const Nil: int := -1

  datatype Owner =
    | Raw                         // beyond a bump mark
    | Caller                      // handed out
    | In(list: nat)

  predicate Distinct(xs: seq<nat>) {
    forall i, j | 0 <= i < j < |xs| :: xs[i] != xs[j]
  }

  function At(xs: seq<nat>, k: int): int {
    if 0 <= k < |xs| then xs[k] else Nil
  }

  predicate NodeOk(links: seq<int>, xs: seq<nat>, k: nat)
    requires k < |xs|
  {
    xs[k] < |links| && links[xs[k]] == At(xs, k + 1)
  }

  // Following the links from xs[0] spells xs and ends.
  predicate Chain(links: seq<int>, xs: seq<nat>) {
    Distinct(xs) && forall k | 0 <= k < |xs| :: NodeOk(links, xs, k)
  }

  predicate Holds(owner: seq<Owner>, xs: seq<nat>, l: nat) {
    forall x | x in xs :: x < |owner| && owner[x] == In(l)
  }

  // Each slot is in exactly the place its owner says.
  predicate ListsOk(links: seq<int>, owner: seq<Owner>, lists: seq<seq<nat>>) {
    && |owner| == |links|
    && (forall l | 0 <= l < |lists| :: Chain(links, lists[l]) && Holds(owner, lists[l], l))
    && (forall x | 0 <= x < |owner| && owner[x].In? :: owner[x].list < |lists| && x in lists[owner[x].list])
  }

  lemma ChainFrame(links: seq<int>, xs: seq<nat>, x: nat, v: int)
    requires Chain(links, xs) && x < |links| && x !in xs
    ensures Chain(links[x := v], xs)
  {
    var links' := links[x := v];
    forall k | 0 <= k < |xs| ensures NodeOk(links', xs, k) { assert NodeOk(links, xs, k) && xs[k] in xs; }
  }

  lemma ChainTail(links: seq<int>, xs: seq<nat>, n: nat)
    requires Chain(links, xs) && n <= |xs|
    ensures Chain(links, xs[n..])
  {
    forall k | 0 <= k < |xs[n..]| ensures NodeOk(links, xs[n..], k) { assert NodeOk(links, xs, n + k); }
  }

  // Two chains with no slot in common are joined by one write.
  lemma ChainJoin(links: seq<int>, xs: seq<nat>, ys: seq<nat>, n: nat)
    requires Chain(links, xs) && Chain(links, ys) && 1 <= n <= |xs| && forall x | x in xs :: x !in ys
    ensures xs[n - 1] < |links| && Chain(links[xs[n - 1] := At(ys, 0)], xs[..n] + ys)
  {
    assert NodeOk(links, xs, n - 1);
    var links' := links[xs[n - 1] := At(ys, 0)];
    var zs := xs[..n] + ys;
    forall k | 0 <= k < |zs| ensures NodeOk(links', zs, k) {
      if k < n { assert NodeOk(links, xs, k) && zs[k] == xs[k]; }
      else { assert NodeOk(links, ys, k - n) && zs[k] == ys[k - n] && ys[k - n] in ys && xs[n - 1] in xs; }
    }
    forall i, j | 0 <= i < n && 0 <= j < |ys| ensures xs[i] != ys[j] { assert xs[i] in xs && ys[j] in ys; }
  }

  // ---------- a slot leaves the front of a list for the caller ----------

  function Taken(lists: seq<seq<nat>>, l: nat): seq<seq<nat>>
    requires l < |lists| && lists[l] != []
  {
    lists[l := lists[l][1..]]
  }

  lemma TakeOk(links: seq<int>, owner: seq<Owner>, lists: seq<seq<nat>>, l: nat)
    requires ListsOk(links, owner, lists) && l < |lists| && lists[l] != []
    ensures var x := lists[l][0];
            x < |links| && links[x] == At(lists[l], 1) && owner[x] == In(l)
            && ListsOk(links, owner[x := Caller], Taken(lists, l))
  {
    var x := lists[l][0];
    assert Chain(links, lists[l]) && NodeOk(links, lists[l], 0) && x in lists[l];
    ChainTail(links, lists[l], 1);
    var owner', lists' := owner[x := Caller], Taken(lists, l);
    forall m | 0 <= m < |lists'| ensures Chain(links, lists'[m]) && Holds(owner', lists'[m], m) {
      assert Chain(links, lists[m]) && Holds(owner, lists[m], m);
    }
    forall y | 0 <= y < |owner'| && owner'[y].In? ensures y in lists'[owner'[y].list] {
      assert y in lists[owner[y].list] && y != x;
    }
  }

  // ---------- a slot that is on no list goes to the front of one ----------

  function Given(lists: seq<seq<nat>>, l: nat, x: nat): seq<seq<nat>>
    requires l < |lists|
  {
    lists[l := [x] + lists[l]]
  }

  lemma GiveOk(links: seq<int>, owner: seq<Owner>, lists: seq<seq<nat>>, l: nat, x: nat)
    requires ListsOk(links, owner, lists) && l < |lists| && x < |links| && !owner[x].In?
    ensures ListsOk(links[x := At(lists[l], 0)], owner[x := In(l)], Given(lists, l, x))
  {
    var links', owner', lists' := links[x := At(lists[l], 0)], owner[x := In(l)], Given(lists, l, x);
    forall m | 0 <= m < |lists| ensures x !in lists[m] { assert Holds(owner, lists[m], m); }
    forall m | 0 <= m < |lists'| ensures Chain(links', lists'[m]) && Holds(owner', lists'[m], m) {
      assert Chain(links, lists[m]) && Holds(owner, lists[m], m);
      ChainFrame(links, lists[m], x, At(lists[l], 0));
      if m == l {
        forall k | 0 <= k < |lists'[l]| ensures NodeOk(links', lists'[l], k) {
          if k > 0 { assert NodeOk(links', lists[l], k - 1); }
        }
      }
    }
    forall y | 0 <= y < |owner'| && owner'[y].In? ensures owner'[y].list < |lists'| && y in lists'[owner'[y].list] {
      if y != x { assert y in lists[owner[y].list]; }
    }
  }

  // ---------- a batch moves from the front of one list to the front of another ----------

  function Moved(lists: seq<seq<nat>>, a: nat, b: nat, n: nat): seq<seq<nat>>
    requires a < |lists| && b < |lists| && n <= |lists[a]|
  {
    lists[a := lists[a][n..]][b := lists[a][..n] + lists[b]]
  }

  function Reassigned(owner: seq<Owner>, xs: seq<nat>, l: nat): (owner': seq<Owner>)
    ensures |owner'| == |owner|
    ensures forall x | 0 <= x < |owner| :: owner'[x] == if x in xs then In(l) else owner[x]
  {
    seq(|owner|, x requires 0 <= x < |owner| => if x in xs then In(l) else owner[x])
  }

  lemma MoveOk(links: seq<int>, owner: seq<Owner>, lists: seq<seq<nat>>, a: nat, b: nat, n: nat)
    requires ListsOk(links, owner, lists) && a < |lists| && b < |lists| && a != b && 1 <= n <= |lists[a]|
    ensures lists[a][n - 1] < |links|
    ensures ListsOk(links[lists[a][n - 1] := At(lists[b], 0)], Reassigned(owner, lists[a][..n], b), Moved(lists, a, b, n))
  {
    var xs, ys := lists[a], lists[b];
    var last := xs[n - 1];
    assert Chain(links, xs) && Chain(links, ys) && Holds(owner, xs, a) && Holds(owner, ys, b);
    assert last in xs;
    forall x | x in xs ensures x !in ys { assert owner[x] == In(a); }
    ChainJoin(links, xs, ys, n);
    ChainTail(links, xs, n);
    assert last !in xs[n..];
    ChainFrame(links, xs[n..], last, At(ys, 0));
    MoveLists(links, owner, lists, a, b, n);
    MoveOwners(owner, lists, a, b, n);
  }

  lemma MoveLists(links: seq<int>, owner: seq<Owner>, lists: seq<seq<nat>>, a: nat, b: nat, n: nat)
    requires ListsOk(links, owner, lists) && a < |lists| && b < |lists| && a != b && 1 <= n <= |lists[a]|
    requires lists[a][n - 1] < |links|
    requires Chain(links[lists[a][n - 1] := At(lists[b], 0)], lists[a][..n] + lists[b])
    requires Chain(links[lists[a][n - 1] := At(lists[b], 0)], lists[a][n..])
    ensures var links', lists' := links[lists[a][n - 1] := At(lists[b], 0)], Moved(lists, a, b, n);
            var owner' := Reassigned(owner, lists[a][..n], b);
            forall m | 0 <= m < |lists'| :: Chain(links', lists'[m]) && Holds(owner', lists'[m], m)
  {
    var last := lists[a][n - 1];
    var links', lists' := links[last := At(lists[b], 0)], Moved(lists, a, b, n);
    var owner' := Reassigned(owner, lists[a][..n], b);
    assert Holds(owner, lists[a], a) && Chain(links, lists[a]) && last in lists[a];
    assert forall x | x in lists[a][..n] :: x in lists[a];
    forall m | 0 <= m < |lists'| ensures Chain(links', lists'[m]) && Holds(owner', lists'[m], m) {
      assert Chain(links, lists[m]) && Holds(owner, lists[m], m);
      if m == a {
        forall x | x in lists[a][n..] ensures x < |owner'| && owner'[x] == In(a) { assert x in lists[a] && x !in lists[a][..n]; }
      } else if m == b {
        forall x | x in lists'[b] ensures x < |owner'| && owner'[x] == In(b) {
          if x !in lists[a][..n] { assert x in lists[b]; } else { assert x in lists[a]; }
        }
      } else {
        assert last !in lists[m];
        ChainFrame(links, lists[m], last, At(lists[b], 0));
        forall x | x in lists[m] ensures x < |owner'| && owner'[x] == In(m) {}
      }
    }
  }

  lemma MoveOwners(owner: seq<Owner>, lists: seq<seq<nat>>, a: nat, b: nat, n: nat)
    requires a < |lists| && b < |lists| && a != b && 1 <= n <= |lists[a]|
    requires forall x | 0 <= x < |owner| && owner[x].In? :: owner[x].list < |lists| && x in lists[owner[x].list]
    ensures var owner', lists' := Reassigned(owner, lists[a][..n], b), Moved(lists, a, b, n);
            forall x | 0 <= x < |owner'| && owner'[x].In? :: owner'[x].list < |lists'| && x in lists'[owner'[x].list]
  {
    var owner', lists' := Reassigned(owner, lists[a][..n], b), Moved(lists, a, b, n);
    forall x | 0 <= x < |owner'| && owner'[x].In? ensures owner'[x].list < |lists'| && x in lists'[owner'[x].list] {
      if x in lists[a][..n] { assert x in lists'[b]; }
      else {
        assert x in lists[owner[x].list];
        if owner[x].list == a {
          assert lists[a] == lists[a][..n] + lists[a][n..];
          assert x in lists[a][n..];
        }
      }
    }
  }

  // ---------- the slab grows ----------

  lemma GrowOk(links: seq<int>, owner: seq<Owner>, lists: seq<seq<nat>>, n: nat)
    requires ListsOk(links, owner, lists)
    ensures ListsOk(links + seq(n, _ => Nil), owner + seq(n, _ => Raw), lists)
  {
    var links', owner' := links + seq(n, _ => Nil), owner + seq(n, _ => Raw);
    forall l | 0 <= l < |lists| ensures Chain(links', lists[l]) && Holds(owner', lists[l], l) {
      assert Chain(links, lists[l]) && Holds(owner, lists[l], l);
      forall k | 0 <= k < |lists[l]| ensures NodeOk(links', lists[l], k) { assert NodeOk(links, lists[l], k); }
    }
  }
}
