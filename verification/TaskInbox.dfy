/**
  The Vyukov multi-producer single-consumer inbox with a recycled stub node
  (include/TaskMPSCQueue.h), as a transition system of single atomic accesses.  A
  producer may stop for any time between its head exchange and its link store.

  `chain` lists the nodes from the consumer's tail to the head in exchange order,
  `pushed` the tasks in the order of their exchanges, `popped` the tasks that `pop`
  handed out.  A node that is not a key of `next` has a null link.
 */
module TaskInbox {

  type Node = nat

  const STUB: Node := 0

  datatype Producer =
    | PIdle
    | PReady(nodes: seq<Node>)          // a private, already linked batch (one node for push)
    | PLink(prev: Node, first: Node)    // exchanged; the link store comes next

  datatype Consumer =
    | CIdle
    | CSecond        // pop: past the stub, the second load of tail->next comes next
    | CHead          // pop: tail->next was null, the load of head comes next
    | CClear         // pop: the stub is to be appended; its link is cleared next
    | CExchange      // pop: the stub's head exchange comes next
    | CLink(prev: Node)
    | CReload        // pop: tail->next is looked at once more
    | CQuiet         // quiescent: tail is the stub with a null link, head comes next

  datatype State = State(
    next: map<Node, Node>,
    head: Node,
    tail: Node,
    producers: seq<Producer>,
    consumer: Consumer,
    chain: seq<Node>,
    pushed: seq<Node>,
    popped: seq<Node>)

  datatype Event =
    | Push(id: nat, nodes: seq<Node>)   // push (one node) and push_batch
    | ProducerStep(id: nat)
    | Pop
    | Quiescent
    | ConsumerStep

  function Init(producers: nat): State {
    State(map[], STUB, STUB, seq(producers, _ => PIdle), CIdle, [STUB], [], [])
  }

  // ---------- the steps ----------

  predicate Distinct(xs: seq<Node>) {
    forall i, j | 0 <= i < j < |xs| :: xs[i] != xs[j]
  }

  // Nodes that the caller may hand in: its own, and nobody else's.
  predicate Owned(s: State, nodes: seq<Node>) {
    && nodes != [] && Distinct(nodes) && STUB !in nodes
    && (forall n | n in nodes :: n !in s.chain)
    && forall p | 0 <= p < |s.producers| && s.producers[p].PReady? :: forall n | n in nodes :: n !in s.producers[p].nodes
  }

  // The batch's internal links, and the null link of its last node.
  function Linked(next: map<Node, Node>, nodes: seq<Node>): map<Node, Node> {
    if nodes == [] then next
    else if |nodes| == 1 then next - {nodes[0]}
    else Linked(next, nodes[1..])[nodes[0] := nodes[1]]
  }

  function SetProducer(s: State, id: nat, p: Producer): State
    requires id < |s.producers|
  {
    s.(producers := s.producers[id := p])
  }

  function StepProducer(s: State, id: nat): State
    requires id < |s.producers|
  {
    match s.producers[id]
    case PIdle => s
    case PReady(nodes) =>
      if nodes == [] then s
      else SetProducer(s, id, PLink(s.head, nodes[0])).(
             head := nodes[|nodes| - 1], chain := s.chain + nodes, pushed := s.pushed + nodes)
    case PLink(prev, first) => SetProducer(s, id, PIdle).(next := s.next[prev := first])
  }

  // tail_ moves on to the node it links to; a real node left behind is handed out.
  function Advance(s: State): State
    requires s.tail in s.next
  {
    s.(tail := s.next[s.tail], chain := if s.chain == [] then [] else s.chain[1..],
       popped := if s.tail == STUB then s.popped else s.popped + [s.tail])
  }

  function StepConsumer(s: State): State {
    match s.consumer
    case CIdle => s
    case CSecond =>
      if s.tail in s.next then Advance(s).(consumer := CIdle) else s.(consumer := CHead)
    case CHead => s.(consumer := if s.tail == s.head then CClear else CIdle)
    case CClear => s.(next := s.next - {STUB}, consumer := CExchange)
    case CExchange => s.(head := STUB, chain := s.chain + [STUB], consumer := CLink(s.head))
    case CLink(prev) => s.(next := s.next[prev := STUB], consumer := CReload)
    case CReload => if s.tail in s.next then Advance(s).(consumer := CIdle) else s.(consumer := CIdle)
    case CQuiet => s.(consumer := CIdle)
  }

  function BeginPop(s: State): State {
    if s.tail == STUB then
      if s.tail in s.next then Advance(s).(consumer := CSecond) else s
    else
      if s.tail in s.next then Advance(s) else s.(consumer := CHead)
  }

  function Step(s: State, e: Event): State {
    match e
    case Push(id, nodes) =>
      if id < |s.producers| && s.producers[id].PIdle? && Owned(s, nodes)
      then SetProducer(s, id, PReady(nodes)).(next := Linked(s.next, nodes))
      else s
    case ProducerStep(id) => if id < |s.producers| then StepProducer(s, id) else s
    case Pop => if s.consumer.CIdle? then BeginPop(s) else s
    case Quiescent =>
      if s.consumer.CIdle? && s.tail == STUB && STUB !in s.next then s.(consumer := CQuiet) else s
    case ConsumerStep => StepConsumer(s)
  }

  function Run(s: State, events: seq<Event>): State {
    if events == [] then s
    else Step(Run(s, events[..|events| - 1]), events[|events| - 1])
  }

  // quiescent() answers true at its load of head.
  predicate QuiescentTrue(s: State) {
    s.consumer.CQuiet? && s.head == s.tail
  }

  // ---------- the invariant ----------

  // The tasks inside: the chain without the stub.
  function Tasks(chain: seq<Node>): seq<Node> {
    if chain == [] then []
    else if chain[0] == STUB then Tasks(chain[1..])
    else [chain[0]] + Tasks(chain[1..])
  }

  // Somebody has exchanged `first` in behind `prev` and not yet stored the link.
  predicate Pending(s: State, prev: Node, first: Node) {
    PLink(prev, first) in s.producers || (s.consumer == CLink(prev) && first == STUB)
  }

  predicate ChainOk(s: State) {
    && s.chain != [] && s.chain[0] == s.tail && s.chain[|s.chain| - 1] == s.head
    && Distinct(s.chain)
    && s.head !in s.next
    && forall i | 0 <= i < |s.chain| - 1 :: LinkAt(s, i)
  }

  // Node i of the chain is linked to the next one, or somebody is about to link it.
  predicate LinkAt(s: State, i: nat)
    requires i + 1 < |s.chain|
  {
    if s.chain[i] in s.next then s.next[s.chain[i]] == s.chain[i + 1]
    else Pending(s, s.chain[i], s.chain[i + 1])
  }

  // A half-finished push writes into a node that is still in the chain and still unlinked.
  predicate PendingOk(s: State, prev: Node, first: Node) {
    prev !in s.next && exists i :: 0 <= i < |s.chain| - 1 && s.chain[i] == prev && s.chain[i + 1] == first
  }

  predicate ReadyOk(s: State, nodes: seq<Node>) {
    && nodes != [] && Distinct(nodes) && STUB !in nodes
    && (forall n | n in nodes :: n !in s.chain)
    && (forall i | 0 <= i < |nodes| - 1 :: Joined(s.next, nodes, i))
    && nodes[|nodes| - 1] !in s.next
  }

  predicate Joined(next: map<Node, Node>, nodes: seq<Node>, i: nat)
    requires i + 1 < |nodes|
  {
    nodes[i] in next && next[nodes[i]] == nodes[i + 1]
  }

  predicate ProducersOk(s: State) {
    && (forall p | 0 <= p < |s.producers| && s.producers[p].PReady? :: ReadyOk(s, s.producers[p].nodes))
    && (forall p | 0 <= p < |s.producers| && s.producers[p].PLink? ::
          PendingOk(s, s.producers[p].prev, s.producers[p].first))
    && (forall p, q | 0 <= p < q < |s.producers| && s.producers[p].PLink? && s.producers[q].PLink? ::
          s.producers[p].prev != s.producers[q].prev)
    && (forall p, q | 0 <= p < q < |s.producers| && s.producers[p].PReady? && s.producers[q].PReady? ::
          forall n | n in s.producers[p].nodes :: n !in s.producers[q].nodes)
  }

  predicate ConsumerOk(s: State) {
    match s.consumer
    case CIdle => true
    case CSecond => s.tail != STUB
    case CHead => s.tail != STUB
    case CClear => s.tail != STUB && STUB !in s.chain
    case CExchange => s.tail != STUB && STUB !in s.chain && STUB !in s.next
    case CLink(prev) =>
      && s.tail != STUB && PendingOk(s, prev, STUB)
      && forall p | 0 <= p < |s.producers| && s.producers[p].PLink? :: s.producers[p].prev != prev
    case CReload => s.tail != STUB
    case CQuiet => s.tail == STUB
  }

  predicate Inv(s: State) {
    && ChainOk(s) && ProducersOk(s) && ConsumerOk(s)
    && s.pushed == s.popped + Tasks(s.chain)
  }

  // ---------- lists ----------

  lemma {:induction false} TasksAppend(a: seq<Node>, b: seq<Node>)
    ensures Tasks(a + b) == Tasks(a) + Tasks(b)
  {
    if a == [] { assert a + b == b; }
    else { assert (a + b)[1..] == a[1..] + b; TasksAppend(a[1..], b); }
  }

  lemma {:induction false} TasksNoStub(a: seq<Node>)
    requires STUB !in a
    ensures Tasks(a) == a
  {
    if a != [] { TasksNoStub(a[1..]); }
  }

  lemma {:induction false} LinkedSpec(next: map<Node, Node>, nodes: seq<Node>)
    requires Distinct(nodes)
    ensures var m := Linked(next, nodes);
            && (forall i | 0 <= i < |nodes| - 1 :: Joined(m, nodes, i))
            && (nodes != [] ==> nodes[|nodes| - 1] !in m)
            && (forall n | n !in nodes :: (n in m <==> n in next) && (n in m ==> m[n] == next[n]))
  {
    if |nodes| > 1 {
      var rest := nodes[1..];
      LinkedSpec(next, rest);
      assert nodes[0] !in rest;
      var m, m' := Linked(next, nodes), Linked(next, rest);
      forall i | 0 <= i < |nodes| - 1 ensures Joined(m, nodes, i) {
        if i > 0 { assert Joined(m', rest, i - 1) && nodes[i] == rest[i - 1]; }
      }
    }
  }

  // ---------- preservation ----------

  // A pending link survives a step that keeps its producer and the consumer's program counter.
  lemma PendingKept(s: State, s': State, id: nat, prev: Node, first: Node)
    requires Pending(s, prev, first) && s'.consumer == s.consumer
    requires id < |s.producers| && |s'.producers| == |s.producers|
    requires forall p | 0 <= p < |s.producers| && p != id :: s'.producers[p] == s.producers[p]
    requires s.producers[id] != PLink(prev, first)
    ensures Pending(s', prev, first)
  {
    if PLink(prev, first) in s.producers {
      var p :| 0 <= p < |s.producers| && s.producers[p] == PLink(prev, first);
      assert s'.producers[p] == s.producers[p];
    }
  }

  lemma PushInv(s: State, id: nat, nodes: seq<Node>)
    requires Inv(s) && id < |s.producers| && s.producers[id].PIdle? && Owned(s, nodes)
    ensures Inv(Step(s, Push(id, nodes)))
  {
    var s' := Step(s, Push(id, nodes));
    LinkedSpec(s.next, nodes);
    assert forall n | n in s.chain :: n !in nodes;
    assert ChainOk(s') by {
      forall i | 0 <= i < |s.chain| - 1 ensures LinkAt(s', i) {
        assert LinkAt(s, i) && s.chain[i] in s.chain;
        if s.chain[i] !in s.next { PendingKept(s, s', id, s.chain[i], s.chain[i + 1]); }
      }
    }
    PushProducers(s, id, nodes);
    assert ConsumerOk(s') by { assert ConsumerOk(s); }
  }

  // A private batch stays ready while its own nodes keep their links and stay out of the chain.
  lemma ReadyKept(s: State, s': State, nodes: seq<Node>)
    requires ReadyOk(s, nodes) && forall n | n in nodes :: n !in s'.chain
    requires forall n | n in nodes :: (n in s'.next <==> n in s.next) && (n in s.next ==> s'.next[n] == s.next[n])
    ensures ReadyOk(s', nodes)
  {
    forall i | 0 <= i < |nodes| - 1 ensures Joined(s'.next, nodes, i) { assert Joined(s.next, nodes, i) && nodes[i] in nodes; }
    assert nodes[|nodes| - 1] in nodes;
  }

  lemma PushProducers(s: State, id: nat, nodes: seq<Node>)
    requires Inv(s) && id < |s.producers| && s.producers[id].PIdle? && Owned(s, nodes)
    ensures ProducersOk(Step(s, Push(id, nodes)))
  {
    var s' := Step(s, Push(id, nodes));
    LinkedSpec(s.next, nodes);
    forall p | 0 <= p < |s'.producers| && s'.producers[p].PReady?
      ensures ReadyOk(s', s'.producers[p].nodes)
    {
      if p != id {
        var theirs := s.producers[p].nodes;
        assert ReadyOk(s, theirs);
        assert forall n | n in theirs :: n !in nodes;
        ReadyKept(s, s', theirs);
      }
    }
    forall p | 0 <= p < |s'.producers| && s'.producers[p].PLink?
      ensures PendingOk(s', s'.producers[p].prev, s'.producers[p].first)
    {
      assert PendingOk(s, s.producers[p].prev, s.producers[p].first);
    }
  }

  // The chain after an append keeps its old positions.
  lemma AppendPending(s: State, s': State, nodes: seq<Node>, prev: Node, first: Node)
    requires ChainOk(s) && s'.chain == s.chain + nodes && s'.next == s.next && PendingOk(s, prev, first)
    ensures PendingOk(s', prev, first) && prev != s.head
  {
    var i :| 0 <= i < |s.chain| - 1 && s.chain[i] == prev && s.chain[i + 1] == first;
    assert s'.chain[i] == prev && s'.chain[i + 1] == first;
  }

  lemma DistinctAppend(a: seq<Node>, b: seq<Node>)
    requires Distinct(a) && Distinct(b) && forall x | x in b :: x !in a
    ensures Distinct(a + b)
  {
    forall i, j | 0 <= i < j < |a + b| ensures (a + b)[i] != (a + b)[j] {
      if i < |a| <= j { assert b[j - |a|] in b && a[i] in a; }
    }
  }

  lemma ExchangeChain(s: State, id: nat)
    requires Inv(s) && id < |s.producers| && s.producers[id].PReady?
    ensures ChainOk(StepProducer(s, id))
  {
    var nodes := s.producers[id].nodes;
    var s' := StepProducer(s, id);
    var n := |s.chain|;
    assert ReadyOk(s, nodes);
    DistinctAppend(s.chain, nodes);
    assert s'.producers[id] == PLink(s.head, nodes[0]);
    forall i | 0 <= i < |s'.chain| - 1 ensures LinkAt(s', i) {
      if i < n - 1 {
        assert LinkAt(s, i) && s'.chain[i] == s.chain[i] && s'.chain[i + 1] == s.chain[i + 1];
        if s.chain[i] !in s.next { PendingKept(s, s', id, s.chain[i], s.chain[i + 1]); }
      } else if i == n - 1 {
        assert s'.chain[i] == s.head && s'.chain[i + 1] == nodes[0];
      } else {
        assert Joined(s.next, nodes, i - n) && s'.chain[i] == nodes[i - n] && s'.chain[i + 1] == nodes[i - n + 1];
      }
    }
  }

  lemma ExchangeProducers(s: State, id: nat)
    requires Inv(s) && id < |s.producers| && s.producers[id].PReady?
    ensures ProducersOk(StepProducer(s, id)) && ConsumerOk(StepProducer(s, id))
  {
    var nodes := s.producers[id].nodes;
    var s' := StepProducer(s, id);
    var n := |s.chain|;
    assert ReadyOk(s, nodes);
    assert s'.chain == s.chain + nodes;
    assert PendingOk(s', s.head, nodes[0]) by {
      assert s'.chain[n - 1] == s.head && s'.chain[n] == nodes[0];
    }
    forall p | 0 <= p < |s'.producers| && s'.producers[p].PLink?
      ensures PendingOk(s', s'.producers[p].prev, s'.producers[p].first)
      ensures p != id ==> s'.producers[p].prev != s.head
    {
      if p != id { AppendPending(s, s', nodes, s.producers[p].prev, s.producers[p].first); }
    }
    if s.consumer.CLink? { AppendPending(s, s', nodes, s.consumer.prev, STUB); }
    forall p | 0 <= p < |s'.producers| && s'.producers[p].PReady?
      ensures ReadyOk(s', s'.producers[p].nodes)
    {
      var theirs := s.producers[p].nodes;
      assert p != id && ReadyOk(s, theirs);
      assert forall x | x in theirs :: x !in nodes;
      ReadyKept(s, s', theirs);
    }
  }

  lemma ExchangeInv(s: State, id: nat)
    requires Inv(s) && id < |s.producers| && s.producers[id].PReady?
    ensures Inv(StepProducer(s, id))
  {
    ExchangeChain(s, id);
    ExchangeProducers(s, id);
    assert ReadyOk(s, s.producers[id].nodes);
    ExchangeTasks(s, id);
  }

  lemma ExchangeTasks(s: State, id: nat)
    requires s.pushed == s.popped + Tasks(s.chain)
    requires id < |s.producers| && s.producers[id].PReady? && ReadyOk(s, s.producers[id].nodes)
    ensures var s' := StepProducer(s, id); s'.pushed == s'.popped + Tasks(s'.chain)
  {
    TasksAppend(s.chain, s.producers[id].nodes);
    TasksNoStub(s.producers[id].nodes);
  }

  // Storing one link leaves private batches and the other pending links alone.
  lemma LinkFrame(s: State, s': State, prev: Node, to: Node)
    requires ChainOk(s) && prev in s.chain && s'.chain == s.chain && s'.next == s.next[prev := to]
    ensures forall nodes | ReadyOk(s, nodes) :: ReadyOk(s', nodes)
    ensures forall a, b | PendingOk(s, a, b) && a != prev :: PendingOk(s', a, b)
  {
    forall nodes | ReadyOk(s, nodes) ensures ReadyOk(s', nodes) {
      assert prev !in nodes;
      ReadyKept(s, s', nodes);
    }
    forall a, b | PendingOk(s, a, b) && a != prev ensures PendingOk(s', a, b) {
      var i :| 0 <= i < |s.chain| - 1 && s.chain[i] == a && s.chain[i + 1] == b;
      assert s'.chain[i] == a && s'.chain[i + 1] == b;
    }
  }

  lemma LinkInv(s: State, id: nat)
    requires Inv(s) && id < |s.producers| && s.producers[id].PLink?
    ensures Inv(StepProducer(s, id))
  {
    var PLink(prev, first) := s.producers[id];
    var s' := StepProducer(s, id);
    assert PendingOk(s, prev, first);
    var k :| 0 <= k < |s.chain| - 1 && s.chain[k] == prev && s.chain[k + 1] == first;
    LinkFrame(s, s', prev, first);
    forall i | 0 <= i < |s.chain| - 1 ensures LinkAt(s', i) {
      assert LinkAt(s, i) && (i != k ==> s.chain[i] != prev);
      if i != k && s.chain[i] !in s.next { PendingKept(s, s', id, s.chain[i], s.chain[i + 1]); }
    }
    assert ProducersOk(s');
  }

  // The consumer's tail moves on: the link it follows is the next node of the chain.
  lemma AdvanceChain(s: State, c: Consumer)
    requires Inv(s) && s.tail in s.next && !s.consumer.CLink?
    ensures var s' := Advance(s).(consumer := c);
            && ChainOk(s')
            && s.chain == [s.tail] + s'.chain
            && (forall prev, first | PendingOk(s, prev, first) :: PendingOk(s', prev, first))
  {
    var s' := Advance(s).(consumer := c);
    assert s.tail != s.head;
    assert LinkAt(s, 0) && s.next[s.chain[0]] == s.chain[1];
    forall prev, first | PendingOk(s, prev, first) ensures PendingOk(s', prev, first) {
      var i :| 0 <= i < |s.chain| - 1 && s.chain[i] == prev && s.chain[i + 1] == first;
      assert i > 0 && s'.chain[i - 1] == prev && s'.chain[i] == first;
    }
    forall i | 0 <= i < |s'.chain| - 1 ensures LinkAt(s', i) {
      assert LinkAt(s, i + 1) && s'.chain[i] == s.chain[i + 1] && s'.chain[i + 1] == s.chain[i + 2];
    }
  }

  lemma AdvanceInv(s: State, c: Consumer)
    requires Inv(s) && s.tail in s.next && !s.consumer.CLink?
    requires c == CIdle || (c == CSecond && s.tail == STUB)
    ensures Inv(Advance(s).(consumer := c))
  {
    var s' := Advance(s).(consumer := c);
    AdvanceChain(s, c);
    assert s.chain[1..] == s'.chain;
    forall nodes | ReadyOk(s, nodes) ensures ReadyOk(s', nodes) { ReadyKept(s, s', nodes); }
    assert c == CSecond ==> s'.tail != STUB by { assert s.chain[1] == s'.tail; }
  }

  // The stub joins the chain only while it is not in it.
  lemma StubExchangeInv(s: State)
    requires Inv(s) && s.consumer.CExchange?
    ensures Inv(StepConsumer(s))
  {
    var s' := StepConsumer(s);
    var n := |s.chain|;
    assert s'.chain[n - 1] == s.head && s'.chain[n] == STUB;
    forall prev, first | PendingOk(s, prev, first) ensures PendingOk(s', prev, first) && prev != s.head {
      var i :| 0 <= i < n - 1 && s.chain[i] == prev && s.chain[i + 1] == first;
      assert s'.chain[i] == prev && s'.chain[i + 1] == first;
    }
    forall i | 0 <= i < |s'.chain| - 1 ensures LinkAt(s', i) {
      if i < n - 1 { assert LinkAt(s, i) && s'.chain[i] == s.chain[i] && s'.chain[i + 1] == s.chain[i + 1]; }
    }
    forall p | 0 <= p < |s'.producers| && s'.producers[p].PReady?
      ensures ReadyOk(s', s'.producers[p].nodes)
    {
      ReadyKept(s, s', s.producers[p].nodes);
    }
    TasksAppend(s.chain, [STUB]);
  }

  lemma StubLinkInv(s: State)
    requires Inv(s) && s.consumer.CLink?
    ensures Inv(StepConsumer(s))
  {
    var s' := StepConsumer(s);
    var prev := s.consumer.prev;
    var k :| 0 <= k < |s.chain| - 1 && s.chain[k] == prev && s.chain[k + 1] == STUB;
    LinkFrame(s, s', prev, STUB);
    forall i | 0 <= i < |s.chain| - 1 ensures LinkAt(s', i) {
      assert LinkAt(s, i) && (i != k ==> s.chain[i] != prev);
    }
  }

  lemma StubClearInv(s: State)
    requires Inv(s) && s.consumer.CClear?
    ensures Inv(StepConsumer(s))
  {
    var s' := StepConsumer(s);
    forall p | 0 <= p < |s'.producers| && s'.producers[p].PReady?
      ensures ReadyOk(s', s'.producers[p].nodes)
    {
      ReadyKept(s, s', s.producers[p].nodes);
    }
    forall p | 0 <= p < |s'.producers| && s'.producers[p].PLink?
      ensures PendingOk(s', s'.producers[p].prev, s'.producers[p].first)
    {
      assert PendingOk(s, s.producers[p].prev, s.producers[p].first);
    }
    forall i | 0 <= i < |s.chain| - 1 ensures LinkAt(s', i) { assert LinkAt(s, i) && s.chain[i] in s.chain; }
  }

  // A consumer step that only moves its program counter.
  lemma QuietMove(s: State, c: Consumer)
    requires Inv(s) && !s.consumer.CLink? && !c.CLink? && ConsumerOk(s.(consumer := c))
    ensures Inv(s.(consumer := c))
  {
    var s' := s.(consumer := c);
    forall i | 0 <= i < |s.chain| - 1 ensures LinkAt(s', i) { assert LinkAt(s, i); }
    forall p | 0 <= p < |s'.producers| && s'.producers[p].PReady?
      ensures ReadyOk(s', s'.producers[p].nodes)
    {
      assert ReadyOk(s, s.producers[p].nodes);
    }
  }

  lemma ConsumerInv(s: State)
    requires Inv(s)
    ensures Inv(StepConsumer(s))
  {
    match s.consumer
    case CIdle =>
    case CSecond => if s.tail in s.next { AdvanceInv(s, CIdle); } else { QuietMove(s, CHead); }
    case CHead =>
      if s.tail == s.head {
        assert |s.chain| == 1;
        QuietMove(s, CClear);
      } else { QuietMove(s, CIdle); }
    case CClear => StubClearInv(s);
    case CExchange => StubExchangeInv(s);
    case CLink(_) => StubLinkInv(s);
    case CReload => if s.tail in s.next { AdvanceInv(s, CIdle); } else { QuietMove(s, CIdle); }
    case CQuiet => QuietMove(s, CIdle);
  }

  /** Every step of any producer or of the consumer keeps the invariant. */
  lemma StepInv(s: State, e: Event)
    requires Inv(s)
    ensures Inv(Step(s, e))
  {
    match e
    case Push(id, nodes) =>
      if id < |s.producers| && s.producers[id].PIdle? && Owned(s, nodes) { PushInv(s, id, nodes); }
    case ProducerStep(id) =>
      if id < |s.producers| {
        if s.producers[id].PReady? { ExchangeInv(s, id); }
        else if s.producers[id].PLink? { LinkInv(s, id); }
      }
    case Pop =>
      if s.consumer.CIdle? {
        if s.tail in s.next { AdvanceInv(s, if s.tail == STUB then CSecond else CIdle); }
        else if s.tail != STUB { QuietMove(s, CHead); }
      }
    case Quiescent =>
      if s.consumer.CIdle? && s.tail == STUB && STUB !in s.next { QuietMove(s, CQuiet); }
    case ConsumerStep => ConsumerInv(s);
  }

  // ---------- whole runs ----------

  lemma {:induction false} RunInv(producers: nat, events: seq<Event>)
    ensures Inv(Run(Init(producers), events))
  {
    if events == [] {
      assert Tasks([STUB]) == [];
    } else {
      RunInv(producers, events[..|events| - 1]);
      StepInv(Run(Init(producers), events[..|events| - 1]), events[|events| - 1]);
    }
  }

  /** First in, first out: in every run the popped tasks followed by the tasks still inside are
      exactly the pushed tasks in the order of their head exchanges. */
  lemma FifoOrder(producers: nat, events: seq<Event>)
    ensures var s := Run(Init(producers), events);
            && s.pushed == s.popped + Tasks(s.chain)
            && s.chain != [] && s.chain[0] == s.tail && s.chain[|s.chain| - 1] == s.head
  {
    RunInv(producers, events);
  }

  /** The stub and every other node are in the chain at most once. */
  lemma NoNodeTwice(producers: nat, events: seq<Event>)
    ensures Distinct(Run(Init(producers), events).chain)
  {
    RunInv(producers, events);
  }

  /** quiescent() answers true only if every begun push has been popped. */
  lemma QuiescentMeansDrained(producers: nat, events: seq<Event>)
    ensures var s := Run(Init(producers), events); QuiescentTrue(s) ==> s.pushed == s.popped
  {
    RunInv(producers, events);
    var s := Run(Init(producers), events);
    if QuiescentTrue(s) {
      assert |s.chain| == 1;
      assert s.chain == [STUB];
      assert Tasks([STUB]) == [];
    }
  }

  /** A stopped producer owes its link to a node that the consumer has not let go of. */
  lemma LateLinkIsSafe(producers: nat, events: seq<Event>, id: nat)
    requires id < |Run(Init(producers), events).producers|
    requires Run(Init(producers), events).producers[id].PLink?
    ensures var s := Run(Init(producers), events); s.producers[id].prev in s.chain
  {
    RunInv(producers, events);
    var s := Run(Init(producers), events);
    assert PendingOk(s, s.producers[id].prev, s.producers[id].first);
  }

  function Solo(s: State, steps: nat): State {
    if steps == 0 then s else StepConsumer(Solo(s, steps - 1))
  }

  // Six consumer steps finish any pop.
  const POP_STEPS: nat := 6

  lemma SoloUnfold(s: State)
    ensures Solo(s, POP_STEPS)
         == StepConsumer(StepConsumer(StepConsumer(StepConsumer(StepConsumer(StepConsumer(s))))))
  {
    assert Solo(s, 1) == StepConsumer(Solo(s, 0));
    assert Solo(s, 2) == StepConsumer(StepConsumer(s));
    assert Solo(s, 4) == StepConsumer(StepConsumer(Solo(s, 2)));
  }

  // The last task is popped by putting the stub behind it.
  lemma LastTaskPop(s: State)
    requires Inv(s) && s.chain == [s.tail] && (s.consumer == CHead || s.consumer == CSecond)
    ensures var f := Solo(s, POP_STEPS); f.consumer == CIdle && f.popped == s.popped + [s.tail]
  {
    SoloUnfold(s);
    var h := if s.consumer == CHead then s else StepConsumer(s);
    assert h == s.(consumer := CHead);
    var c := StepConsumer(h);
    var x := StepConsumer(c);
    var l := StepConsumer(x);
    assert l.consumer == CLink(s.tail) && l.tail == s.tail;
    var r := StepConsumer(l);
    assert r.consumer == CReload && r.tail in r.next;
    var f := StepConsumer(r);
    assert f.consumer == CIdle && f.popped == s.popped + [s.tail] && StepConsumer(f) == f;
  }

  /** With no half-finished push, a pop left alone returns the oldest task, and fails only when
      there is none. */
  lemma UndisturbedPop(s: State)
    requires Inv(s) && s.consumer.CIdle?
    requires forall p | 0 <= p < |s.producers| :: !s.producers[p].PLink?
    ensures var f := Solo(Step(s, Pop), POP_STEPS);
            && f.consumer == CIdle
            && f.popped == if Tasks(s.chain) == [] then s.popped else s.popped + [Tasks(s.chain)[0]]
  {
    var s1 := Step(s, Pop);
    StepInv(s, Pop);
    SoloUnfold(s1);
    forall i | 0 <= i < |s.chain| - 1 ensures Joined(s.next, s.chain, i) {
      assert LinkAt(s, i) && PLink(s.chain[i], s.chain[i + 1]) !in s.producers;
    }
    assert |s.chain| > 1 ==> Joined(s.next, s.chain, 0);
    if s.tail == STUB && |s.chain| == 1 {
      assert s.chain == [STUB] && Tasks(s.chain) == Tasks([]);
    } else if s.tail == STUB {
      assert Tasks(s.chain) == Tasks(s.chain[1..]) && s1.consumer == CSecond && s1.chain == s.chain[1..];
      if |s.chain| == 2 {
        LastTaskPop(s1);
      } else {
        assert Joined(s.next, s.chain, 1);
        var f := StepConsumer(s1);
        assert f.consumer == CIdle && StepConsumer(f) == f;
      }
    } else if |s.chain| == 1 {
      LastTaskPop(s1);
    }
  }

  // ---------- what the producers handed in ----------

  predicate Accepted(s: State, id: nat, nodes: seq<Node>) {
    id < |s.producers| && s.producers[id].PIdle? && Owned(s, nodes)
  }

  // The nodes of the producer's last call: one it made between its calls, with nodes of its own.
  function LastCall(s: State, events: seq<Event>, id: nat): seq<Node> {
    if events == [] then []
    else
      var before, e := events[..|events| - 1], events[|events| - 1];
      if e.Push? && e.id == id && Accepted(Run(s, before), id, e.nodes) then e.nodes else LastCall(s, before, id)
  }

  // What was handed in, in the order of the head exchanges.
  function InOrder(s: State, events: seq<Event>): seq<Node> {
    if events == [] then []
    else
      var before, e := events[..|events| - 1], events[|events| - 1];
      var now := Run(s, before);
      InOrder(s, before) +
      if e.ProducerStep? && e.id < |now.producers| && now.producers[e.id].PReady? then LastCall(s, before, e.id) else []
  }

  lemma StepReady(s: State, e: Event, id: nat)
    requires id < |s.producers|
    ensures var s' := Step(s, e);
            && |s'.producers| == |s.producers|
            && (s'.producers[id].PReady? ==>
                  if e.Push? && e.id == id && Accepted(s, id, e.nodes) then s'.producers[id].nodes == e.nodes
                  else s'.producers[id] == s.producers[id])
  {
  }

  lemma {:induction false} ReadyIsLastCall(producers: nat, events: seq<Event>, id: nat)
    requires id < producers
    ensures var s := Run(Init(producers), events);
            |s.producers| == producers && (s.producers[id].PReady? ==> s.producers[id].nodes == LastCall(Init(producers), events, id))
  {
    if events != [] {
      ReadyIsLastCall(producers, events[..|events| - 1], id);
      StepReady(Run(Init(producers), events[..|events| - 1]), events[|events| - 1], id);
    }
  }

  lemma StepPushed(s: State, e: Event)
    requires Inv(s)
    ensures Step(s, e).pushed ==
            s.pushed + if e.ProducerStep? && e.id < |s.producers| && s.producers[e.id].PReady? then s.producers[e.id].nodes else []
  {
    if e.ProducerStep? && e.id < |s.producers| && s.producers[e.id].PReady? { assert ReadyOk(s, s.producers[e.id].nodes); }
  }

  /** What is in the queue's books is what the producers' calls handed in, batch by batch, in the order of
      their head exchanges: no node more, none less, none in another place. */
  lemma {:induction false} PushedIsHanded(producers: nat, events: seq<Event>)
    ensures Run(Init(producers), events).pushed == InOrder(Init(producers), events)
  {
    if events != [] {
      var before, e := events[..|events| - 1], events[|events| - 1];
      PushedIsHanded(producers, before);
      RunInv(producers, before);
      StepPushed(Run(Init(producers), before), e);
      if producers > 0 { ReadyIsLastCall(producers, before, 0); }
      if e.ProducerStep? && e.id < producers { ReadyIsLastCall(producers, before, e.id); }
      SameProducers(Init(producers), before);
    }
  }

  lemma {:induction false} SameProducers(s: State, events: seq<Event>)
    ensures |Run(s, events).producers| == |s.producers|
  {
    if events != [] {
      SameProducers(s, events[..|events| - 1]);
      var now := Run(s, events[..|events| - 1]);
      if |now.producers| > 0 { StepReady(now, events[|events| - 1], 0); }
    }
  }

  /** A push left alone puts its nodes, in order, at the end of the queue, linked. */
  lemma PushAlone(s: State, id: nat, nodes: seq<Node>)
    requires Inv(s) && Accepted(s, id, nodes)
    ensures var f := StepProducer(StepProducer(Step(s, Push(id, nodes)), id), id);
            && Inv(f) && f.producers[id].PIdle? && f.chain == s.chain + nodes && f.pushed == s.pushed + nodes
            && f.popped == s.popped && f.head == nodes[|nodes| - 1] && s.head in f.next && f.next[s.head] == nodes[0]
  {
    StepInv(s, Push(id, nodes));
    var s1 := Step(s, Push(id, nodes));
    StepInv(s1, ProducerStep(id));
    StepInv(StepProducer(s1, id), ProducerStep(id));
  }

  /** And quiescent() does answer true once everything has been popped. */
  lemma DrainedIsQuiescent(s: State)
    requires Inv(s) && s.consumer.CIdle? && s.pushed == s.popped
    ensures Step(s, Quiescent).consumer.CQuiet? && QuiescentTrue(Step(s, Quiescent))
  {
    NoTasks(s.chain);
    assert s.chain == [STUB];
  }

  lemma {:induction false} NoTasks(chain: seq<Node>)
    requires Tasks(chain) == []
    ensures forall i | 0 <= i < |chain| :: chain[i] == STUB
  {
    if chain != [] { NoTasks(chain[1..]); }
  }
}
