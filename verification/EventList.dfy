/**
  Event's waiter list (include/Event.h:62-119): doubly linked through the tasks, edited in place
  under the event's spinlock.  A detached chain is linked by waitNext alone.
 */
module EventList {

  class Task {
    var waitNext: Task?
    var waitPrev: Task?
    const token: nat
    constructor (token: nat)
      ensures this.token == token && waitNext == null && waitPrev == null
    {
      this.token, waitNext, waitPrev := token, null, null;
    }
  }

  ghost predicate Distinct(xs: seq<Task>) {
    forall i, j | 0 <= i < j < |xs| :: xs[i] != xs[j]
  }

  ghost function At(xs: seq<Task>, k: int): Task? {
    if 0 <= k < |xs| then xs[k] else null
  }

  ghost predicate LinkOk(xs: seq<Task>, k: nat)
    requires k < |xs|
    reads xs[k]
  {
    xs[k].waitNext == At(xs, k + 1) && xs[k].waitPrev == At(xs, k - 1)
  }

  ghost predicate NextOk(xs: seq<Task>, k: nat)
    requires k < |xs|
    reads xs[k]
  {
    xs[k].waitNext == At(xs, k + 1)
  }

  // A detached chain.
  ghost predicate Chain(xs: seq<Task>)
    reads xs
  {
    Distinct(xs) && forall k | 0 <= k < |xs| :: NextOk(xs, k)
  }

  // The waiters within a token, or those outside it, in order.
  ghost function Within(xs: seq<Task>, tokens: set<nat>, inside: bool): seq<Task> {
    if xs == [] then []
    else
      var rest := Within(xs[..|xs| - 1], tokens, inside);
      var last := xs[|xs| - 1];
      if (last.token in tokens) == inside then rest + [last] else rest
  }

  lemma WithinNext(xs: seq<Task>, tokens: set<nat>, inside: bool, k: nat)
    requires k < |xs|
    ensures Within(xs[..k + 1], tokens, inside) ==
            Within(xs[..k], tokens, inside) + if (xs[k].token in tokens) == inside then [xs[k]] else []
  {
    assert xs[..k + 1][..k] == xs[..k];
  }

  lemma {:induction false} WithinMembers(xs: seq<Task>, tokens: set<nat>, inside: bool)
    ensures forall x | x in Within(xs, tokens, inside) :: x in xs && (x.token in tokens) == inside
    ensures forall x | x in xs && (x.token in tokens) == inside :: x in Within(xs, tokens, inside)
  {
    if xs != [] { WithinMembers(xs[..|xs| - 1], tokens, inside); }
  }

  // It keeps the order: its elements are picked at increasing positions.
  lemma {:induction false} WithinOrdered(xs: seq<Task>, tokens: set<nat>, inside: bool) returns (at: seq<nat>)
    ensures |at| == |Within(xs, tokens, inside)|
    ensures forall k | 0 <= k < |at| :: at[k] < |xs| && Within(xs, tokens, inside)[k] == xs[at[k]]
    ensures forall i, j | 0 <= i < j < |at| :: at[i] < at[j]
  {
    if xs == [] { at := []; }
    else {
      at := WithinOrdered(xs[..|xs| - 1], tokens, inside);
      if (xs[|xs| - 1].token in tokens) == inside { at := at + [|xs| - 1]; }
    }
  }

  class EventList {
    var head: Task?
    var tail: Task?
    ghost var nodes: seq<Task>

    ghost predicate Valid()
      reads this, nodes
    {
      && Distinct(nodes) && (forall k | 0 <= k < |nodes| :: LinkOk(nodes, k))
      && head == At(nodes, 0) && tail == At(nodes, |nodes| - 1)
    }

    constructor ()
      ensures Valid() && nodes == []
    {
      head, tail, nodes := null, null, [];
    }

    method AddWaiter(t: Task)
      requires Valid() && t !in nodes
      modifies this, t, tail
      ensures Valid() && nodes == old(nodes) + [t]
    {
      ghost var before := nodes;
      assert before != [] ==> tail in before;
      t.waitNext := null;
      t.waitPrev := tail;
      if tail != null { tail.waitNext := t; } else { head := t; }
      tail := t;
      nodes := before + [t];
      forall k | 0 <= k < |nodes| ensures LinkOk(nodes, k) {
        if k < |before| { assert old(LinkOk(before, k)) && before[k] in before; }
      }
    }

    // The whole list, detached in one go.
    method DetachAll() returns (list: Task?, ghost taken: seq<Task>)
      requires Valid()
      modifies this
      ensures Valid() && nodes == [] && taken == old(nodes) && list == At(taken, 0) && Chain(taken)
    {
      list, taken := head, nodes;
      forall k | 0 <= k < |taken| ensures NextOk(taken, k) { assert LinkOk(nodes, k); }
      head, tail, nodes := null, null, [];
    }

    method Unlink(t: Task, ghost p: nat)
      requires Valid() && p < |nodes| && nodes[p] == t
      modifies this, t, t.waitPrev, t.waitNext
      ensures Valid() && nodes == old(nodes)[..p] + old(nodes)[p + 1..] && t.waitNext == null && t.waitPrev == null
    {
      ghost var before := nodes;
      assert LinkOk(before, p);
      assert p + 1 < |before| ==> LinkOk(before, p + 1);
      assert p > 0 ==> LinkOk(before, p - 1);
      var prev, next := t.waitPrev, t.waitNext;
      if prev != null { prev.waitNext := next; } else { head := next; }
      if next != null { next.waitPrev := prev; } else { tail := prev; }
      t.waitPrev := null;
      t.waitNext := null;
      nodes := before[..p] + before[p + 1..];
      forall i | 0 <= i < |nodes| ensures LinkOk(nodes, i) {
        var j := if i < p then i else i + 1;
        assert old(LinkOk(before, j)) && nodes[i] == before[j];
      }
    }

    // Unlink, then onto the victims chain.
    method TakeVictim(t: Task, ghost p: nat, first: Task?, last: Task?, ghost taken: seq<Task>)
      returns (first': Task?, last': Task?)
      requires Valid() && p < |nodes| && nodes[p] == t && Chain(taken) && forall x | x in taken :: x !in nodes
      requires first == At(taken, 0) && last == At(taken, |taken| - 1)
      modifies this, t, t.waitPrev, t.waitNext, last
      ensures Valid() && nodes == old(nodes)[..p] + old(nodes)[p + 1..]
      ensures Chain(taken + [t]) && first' == At(taken + [t], 0) && last' == t
    {
      assert taken != [] ==> last in taken;
      assert LinkOk(nodes, p) && t in nodes;
      assert t.waitPrev != null ==> t.waitPrev in nodes;
      assert t.waitNext != null ==> t.waitNext in nodes;
      Unlink(t, p);
      forall k | 0 <= k < |taken| ensures NextOk(taken, k) { assert old(NextOk(taken, k)) && taken[k] in taken; }
      ghost var mid := nodes;
      assert t !in mid;
      label Unlinked:
      if last != null { last.waitNext := t; first' := first; } else { first' := t; }
      last' := t;
      ghost var longer := taken + [t];
      forall k | 0 <= k < |longer| ensures NextOk(longer, k) {
        if k < |taken| {
          assert old@Unlinked(NextOk(taken, k)) && longer[k] == taken[k];
          assert k < |taken| - 1 ==> taken[k] != taken[|taken| - 1];
        }
      }
    }

    // In the middle of CancelWaiters: the first k waiters of `all` have been looked at.
    ghost predicate Cancelling(all: seq<Task>, k: nat, tokens: set<nat>, taken: seq<Task>, victims: Task?, last: Task?)
      reads this, nodes, taken
    {
      && k <= |all| && Distinct(all) && Valid()
      && nodes == Within(all[..k], tokens, false) + all[k..] && taken == Within(all[..k], tokens, true)
      && Chain(taken) && victims == At(taken, 0) && last == At(taken, |taken| - 1)
    }

    lemma NextWaiter(tokens: set<nat>, victims: Task?, last: Task?, all: seq<Task>, k: nat, taken: seq<Task>)
      requires Cancelling(all, k, tokens, taken, victims, last) && k < |all|
      ensures all[k].waitNext == At(all, k + 1)
    {
      assert LinkOk(nodes, |Within(all[..k], tokens, false)|);
    }

    // Waiter k is outside the token and stays.
    lemma KeepOne(tokens: set<nat>, victims: Task?, last: Task?, all: seq<Task>, k: nat, taken: seq<Task>)
      requires Cancelling(all, k, tokens, taken, victims, last) && k < |all| && all[k].token !in tokens
      ensures Cancelling(all, k + 1, tokens, taken, victims, last)
    {
      WithinNext(all, tokens, true, k);
      WithinNext(all, tokens, false, k);
      var kept := Within(all[..k], tokens, false);
      assert kept + all[k..] == kept + [all[k]] + all[k + 1..];
    }

    // Waiter k is inside the token: unlinked, and onto the victims chain.
    method CancelOne(t: Task, tokens: set<nat>, victims: Task?, last: Task?,
                     ghost all: seq<Task>, ghost k: nat, ghost taken: seq<Task>)
      returns (victims': Task?, last': Task?)
      requires Cancelling(all, k, tokens, taken, victims, last) && k < |all| && t == all[k] && t.token in tokens
      modifies this, all
      ensures Cancelling(all, k + 1, tokens, taken + [t], victims', last')
    {
      CancelFacts(tokens, victims, last, all, k, taken);
      victims', last' := TakeVictim(t, |Within(all[..k], tokens, false)|, victims, last, taken);
    }

    // What CancelOne relies on: where the waiter stands, what cutting it out leaves, and what it touches.
    lemma CancelFacts(tokens: set<nat>, victims: Task?, last: Task?, all: seq<Task>, k: nat, taken: seq<Task>)
      requires Cancelling(all, k, tokens, taken, victims, last) && k < |all| && all[k].token in tokens
      ensures var p := |Within(all[..k], tokens, false)|;
              && p < |nodes| && nodes[p] == all[k]
              && nodes[..p] + nodes[p + 1..] == Within(all[..k + 1], tokens, false) + all[k + 1..]
              && taken + [all[k]] == Within(all[..k + 1], tokens, true)
      ensures forall x | x in taken :: x !in nodes
      ensures last != null ==> last in all
      ensures all[k].waitPrev != null ==> all[k].waitPrev in all
      ensures all[k].waitNext != null ==> all[k].waitNext in all
    {
      var kept := Within(all[..k], tokens, false);
      WithinNext(all, tokens, true, k);
      WithinNext(all, tokens, false, k);
      Apart(all, k, tokens);
      CutMiddle(kept, all[k..]);
      assert all[k..][1..] == all[k + 1..];
      assert taken != [] ==> last in taken;
      assert LinkOk(nodes, |kept|);
      assert all[k].waitPrev != null ==> all[k].waitPrev in nodes;
      assert all[k].waitNext != null ==> all[k].waitNext in nodes;
    }

    // One round of CancelWaiters' loop.
    method CancelRound(t: Task, tokens: set<nat>, victims: Task?, last: Task?,
                       ghost all: seq<Task>, ghost k: nat, ghost taken: seq<Task>)
      returns (next: Task?, victims': Task?, last': Task?, ghost taken': seq<Task>)
      requires Cancelling(all, k, tokens, taken, victims, last) && k < |all| && t == all[k]
      modifies this, all
      ensures Cancelling(all, k + 1, tokens, taken', victims', last') && next == At(all, k + 1)
    {
      next := t.waitNext;
      NextWaiter(tokens, victims, last, all, k, taken);
      if t.token in tokens {
        victims', last' := CancelOne(t, tokens, victims, last, all, k, taken);
        taken' := taken + [t];
      } else {
        KeepOne(tokens, victims, last, all, k, taken);
        victims', last', taken' := victims, last, taken;
      }
    }

    /** Unlinks exactly the waiters inside the token, oldest first; the others stay linked in order. */
    method CancelWaiters(tokens: set<nat>) returns (victims: Task?, ghost taken: seq<Task>)
      requires Valid()
      modifies this, nodes
      ensures Valid() && nodes == Within(old(nodes), tokens, false)
      ensures taken == Within(old(nodes), tokens, true) && Chain(taken) && victims == At(taken, 0)
    {
      ghost var all := nodes;
      var last: Task? := null;
      victims, taken := null, [];
      var t := head;
      ghost var k := 0;
      while t != null
        invariant all == old(nodes) && Cancelling(all, k, tokens, taken, victims, last) && t == At(all, k)
        decreases |all| - k
      {
        t, victims, last, taken := CancelRound(t, tokens, victims, last, all, k, taken);
        k := k + 1;
      }
      assert all[..k] == all;
    }
  }

  lemma CutMiddle(a: seq<Task>, b: seq<Task>)
    requires b != []
    ensures (a + b)[..|a|] + (a + b)[|a| + 1..] == a + b[1..]
  {
  }

  // What is taken so far is no longer linked, but was.
  lemma Apart(all: seq<Task>, k: nat, tokens: set<nat>)
    requires k <= |all| && Distinct(all)
    ensures var kept, taken := Within(all[..k], tokens, false), Within(all[..k], tokens, true);
            (forall x | x in taken :: x !in kept + all[k..] && x in all) && (forall x | x in kept + all[k..] :: x in all)
  {
    WithinMembers(all[..k], tokens, true);
    WithinMembers(all[..k], tokens, false);
  }
}
