/**
  The intrusive waiter queue (include/WaitList.h:32-108).  A list's nodes live on the waiters'
  own stacks; the caller holds the primitive's lock.
 */
module WaitList {

  class WaitNode {
    var next: WaitNode?
    const waiter: nat              // the waiter's ticket
    constructor (waiter: nat)
      ensures this.waiter == waiter && next == null
    {
      this.waiter, next := waiter, null;
    }
  }

  ghost predicate DistinctNodes(xs: seq<WaitNode>) {
    forall i, j | 0 <= i < j < |xs| :: xs[i] != xs[j]
  }

  ghost function NodeAt(xs: seq<WaitNode>, k: int): WaitNode? {
    if 0 <= k < |xs| then xs[k] else null
  }

  // Following `next` from xs[0] spells xs and ends.
  ghost predicate Chain(xs: seq<WaitNode>)
    reads xs
  {
    DistinctNodes(xs) && forall k | 0 <= k < |xs| :: Follows(xs, k)
  }

  ghost predicate Follows(xs: seq<WaitNode>, k: nat)
    requires k < |xs|
    reads xs[k]
  {
    xs[k].next == NodeAt(xs, k + 1)
  }

  // The nodes that a predicate accepts, or those that it does not, in order.
  ghost function Filter(xs: seq<WaitNode>, p: WaitNode -> bool, accept: bool): seq<WaitNode> {
    if xs == [] then []
    else
      var rest := Filter(xs[..|xs| - 1], p, accept);
      var last := xs[|xs| - 1];
      if p(last) == accept then rest + [last] else rest
  }

  lemma {:induction false} FilterMembers(xs: seq<WaitNode>, p: WaitNode -> bool, accept: bool)
    ensures forall x | x in Filter(xs, p, accept) :: x in xs && p(x) == accept
    ensures forall x | x in xs && p(x) == accept :: x in Filter(xs, p, accept)
  {
    if xs != [] { FilterMembers(xs[..|xs| - 1], p, accept); }
  }

  lemma FilterNext(xs: seq<WaitNode>, p: WaitNode -> bool, accept: bool, k: nat)
    requires k < |xs|
    ensures Filter(xs[..k + 1], p, accept) ==
            Filter(xs[..k], p, accept) + if p(xs[k]) == accept then [xs[k]] else []
  {
    assert xs[..k + 1][..k] == xs[..k];
  }

  // Filter keeps order: it is picked by increasing positions.
  lemma {:induction false} FilterPositions(xs: seq<WaitNode>, p: WaitNode -> bool, accept: bool) returns (at: seq<nat>)
    ensures |at| == |Filter(xs, p, accept)|
    ensures forall k | 0 <= k < |at| :: at[k] < |xs| && Filter(xs, p, accept)[k] == xs[at[k]]
    ensures forall i, j | 0 <= i < j < |at| :: at[i] < at[j]
  {
    if xs == [] { at := []; }
    else {
      at := FilterPositions(xs[..|xs| - 1], p, accept);
      if p(xs[|xs| - 1]) == accept { at := at + [|xs| - 1]; }
    }
  }

  class WaitList {
    var head: WaitNode?
    var tail: WaitNode?
    ghost var nodes: seq<WaitNode>

    ghost predicate Valid()
      reads this, nodes
    {
      Chain(nodes) && head == NodeAt(nodes, 0) && tail == NodeAt(nodes, |nodes| - 1)
    }

    constructor ()
      ensures Valid() && nodes == []
    {
      head, tail, nodes := null, null, [];
    }

    method Empty() returns (empty: bool)
      requires Valid()
      ensures empty <==> nodes == []
    {
      empty := head == null;
    }

    method PushBack(n: WaitNode)
      requires Valid() && n !in nodes
      modifies this, n, tail
      ensures Valid() && nodes == old(nodes) + [n]
    {
      n.next := null;
      if tail != null {
        assert nodes[|nodes| - 1] == tail;
        tail.next := n;
      } else {
        head := n;
      }
      tail := n;
      ghost var before := nodes;
      nodes := nodes + [n];
      forall k | 0 <= k < |nodes| ensures Follows(nodes, k) {
        if k < |before| - 1 { assert old(Follows(before, k)); }
      }
    }

    method PopFront() returns (n: WaitNode?)
      requires Valid()
      modifies this, head
      ensures Valid()
      ensures old(nodes) == [] ==> n == null && nodes == []
      ensures old(nodes) != [] ==> n == old(nodes)[0] && nodes == old(nodes)[1..] && n.next == null
    {
      n := head;
      if n != null {
        assert Follows(nodes, 0);
        ghost var before := nodes;
        head := n.next;
        if head == null { tail := null; }
        n.next := null;
        nodes := nodes[1..];
        forall k | 0 <= k < |nodes| ensures Follows(nodes, k) { assert old(Follows(before, k + 1)); }
      }
    }

    // Every waiter, oldest first, detached in one go.
    method TakeAll() returns (n: WaitNode?, ghost taken: seq<WaitNode>)
      requires Valid()
      modifies this
      ensures Valid() && nodes == [] && taken == old(nodes) && n == NodeAt(taken, 0) && Chain(taken)
    {
      n, taken := head, nodes;
      head, tail, nodes := null, null, [];
    }

    /** Unlinks one node if it is still queued; the others keep their order. */
    method Remove(target: WaitNode) returns (found: bool)
      requires Valid()
      modifies this, nodes
      ensures Valid() && found == (target in old(nodes))
      ensures found ==> exists k :: 0 <= k < |old(nodes)| && old(nodes)[k] == target
                                    && nodes == old(nodes)[..k] + old(nodes)[k + 1..] && target.next == null
      ensures !found ==> nodes == old(nodes)
    {
      var prev: WaitNode?, n: WaitNode? := null, head;
      ghost var k := 0;
      while n != null
        invariant 0 <= k <= |nodes| && n == NodeAt(nodes, k) && prev == NodeAt(nodes, k - 1)
        invariant target !in nodes[..k] && nodes == old(nodes) && Valid()
        invariant unchanged(this) && unchanged(nodes)
        decreases |nodes| - k
      {
        assert Follows(nodes, k);
        if n == target {
          Cut(prev, n, k);
          return true;
        }
        prev := n;
        n := n.next;
        k := k + 1;
      }
      return false;
    }

    // Takes node k out of the chain.
    method Cut(prev: WaitNode?, n: WaitNode, ghost k: nat)
      requires Valid() && k < |nodes| && n == nodes[k] && prev == NodeAt(nodes, k - 1)
      modifies this, nodes
      ensures Valid() && nodes == old(nodes)[..k] + old(nodes)[k + 1..] && n.next == null
    {
      assert Follows(nodes, k);
      ghost var before := nodes;
      if prev == null { head := n.next; } else { prev.next := n.next; }
      if tail == n { tail := prev; }
      n.next := null;
      nodes := before[..k] + before[k + 1..];
      forall i | 0 <= i < |nodes| ensures Follows(nodes, i) {
        var j := if i < k then i else i + 1;
        assert old(Follows(before, j)) && nodes[i] == before[j];
      }
    }

    /** Detaches every node the predicate accepts, oldest first; the rest stay queued in order. */
    method TakeIf(p: WaitNode -> bool) returns (victims: WaitNode?, ghost taken: seq<WaitNode>)
      requires Valid()
      modifies this, nodes
      ensures Valid() && nodes == Filter(old(nodes), p, false)
      ensures taken == Filter(old(nodes), p, true) && Chain(taken) && victims == NodeAt(taken, 0)
    {
      ghost var all := nodes;
      var takenLast: WaitNode?, keepHead: WaitNode?, keepLast: WaitNode? := null, null, null;
      ghost var kept: seq<WaitNode> := [];
      victims, taken := null, [];
      var n := head;
      ghost var k := 0;
      while n != null
        invariant nodes == all && all == old(nodes) && n == NodeAt(all, k)
        invariant Splitting(all, k, p, victims, takenLast, taken, keepHead, keepLast, kept)
        decreases |all| - k
      {
        n, victims, takenLast, keepHead, keepLast, taken, kept :=
          Route(n, p, victims, takenLast, keepHead, keepLast, all, k, taken, kept);
        k := k + 1;
      }
      assert all[..k] == all;
      head, tail, nodes := keepHead, keepLast, kept;
    }
  }

  // In the middle of TakeIf: the first k nodes have been shared out between two lists.
  ghost predicate Splitting(all: seq<WaitNode>, k: nat, p: WaitNode -> bool,
                            victims: WaitNode?, takenLast: WaitNode?, taken: seq<WaitNode>,
                            keepHead: WaitNode?, keepLast: WaitNode?, kept: seq<WaitNode>)
    reads all, taken, kept
  {
    && k <= |all| && taken == Filter(all[..k], p, true) && kept == Filter(all[..k], p, false)
    && ListOf(victims, takenLast, taken) && ListOf(keepHead, keepLast, kept) && Unread(all, k)
  }

  // One round of TakeIf's loop.
  method Route(n: WaitNode, p: WaitNode -> bool, victims: WaitNode?, takenLast: WaitNode?, keepHead: WaitNode?, keepLast: WaitNode?,
               ghost all: seq<WaitNode>, ghost k: nat, ghost taken: seq<WaitNode>, ghost kept: seq<WaitNode>)
    returns (next: WaitNode?, victims': WaitNode?, takenLast': WaitNode?, keepHead': WaitNode?, keepLast': WaitNode?,
             ghost taken': seq<WaitNode>, ghost kept': seq<WaitNode>)
    requires Splitting(all, k, p, victims, takenLast, taken, keepHead, keepLast, kept) && k < |all| && n == all[k]
    modifies all
    ensures next == NodeAt(all, k + 1)
    ensures Splitting(all, k + 1, p, victims', takenLast', taken', keepHead', keepLast', kept')
  {
    assert Follows(all, k);
    next := n.next;
    victims', takenLast', keepHead', keepLast', taken', kept' := victims, takenLast, keepHead, keepLast, taken, kept;
    FilterNext(all, p, true, k);
    FilterNext(all, p, false, k);
    FilterMembers(all[..k], p, true);
    FilterMembers(all[..k], p, false);
    assert taken != [] ==> takenLast in taken && takenLast in all;
    assert kept != [] ==> keepLast in kept && keepLast in all;
    if p(n) {
      victims', takenLast' := Append(victims, takenLast, n, taken, kept, all, k);
      taken' := taken + [n];
    } else {
      keepHead', keepLast' := Append(keepHead, keepLast, n, kept, taken, all, k);
      kept' := kept + [n];
    }
  }

  ghost predicate ListOf(first: WaitNode?, last: WaitNode?, xs: seq<WaitNode>)
    reads xs
  {
    Chain(xs) && first == NodeAt(xs, 0) && last == NodeAt(xs, |xs| - 1)
  }

  // The nodes from k on still carry the links of the list being taken apart.
  ghost predicate Unread(all: seq<WaitNode>, k: nat)
    reads all
  {
    DistinctNodes(all) && forall j | k <= j < |all| :: Follows(all, j)
  }

  // Node k of `all` becomes the last of the list xs; the list ys, made of other earlier nodes, is untouched.
  method Append(first: WaitNode?, last: WaitNode?, n: WaitNode, ghost xs: seq<WaitNode>, ghost ys: seq<WaitNode>,
                ghost all: seq<WaitNode>, ghost k: nat)
    returns (first': WaitNode?, last': WaitNode?)
    requires k < |all| && n == all[k] && Unread(all, k) && ListOf(first, last, xs) && Chain(ys)
    requires forall x | x in xs :: x in all[..k] && x !in ys
    requires forall y | y in ys :: y in all[..k]
    modifies n, last
    ensures ListOf(first', last', xs + [n]) && Chain(ys) && Unread(all, k + 1)
  {
    assert n !in xs && n !in ys;
    assert xs != [] ==> last in xs;
    n.next := null;
    first', last' := first, n;
    if last != null { last.next := n; } else { first' := n; }
    ghost var zs := xs + [n];
    forall i | 0 <= i < |zs| ensures Follows(zs, i) {
      if i < |xs| {
        assert old(Follows(xs, i)) && zs[i] == xs[i];
        assert i < |xs| - 1 ==> xs[i] != xs[|xs| - 1];
      }
    }
    forall i | 0 <= i < |ys| ensures Follows(ys, i) { assert old(Follows(ys, i)) && ys[i] in ys; }
    forall j | k < j < |all| ensures Follows(all, j) {
      assert old(Follows(all, j)) && all[j] !in all[..k];
    }
  }
}
