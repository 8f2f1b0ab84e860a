/**
  A task graph while it is built, submitted, extended, cancelled and run
  (src/TaskDAG.cpp, include/TaskDAG.h:127-140), as a transition system of single atomic
  accesses.  Nodes and edges are numbers.  `list[d]` is node d's edge list, oldest first,
  so a head pointer is a length; an edge list is sealed when its node has ended.

  A nested call (Fire inside a walk) is an activity of its own, free to run at any time:
  pending calls of Fire are the multiset `fires`.  Every interleaving of the real call
  stacks is an interleaving here.
 */
module TaskDag {
  import DagCycle

  // Pass: a gate, or a node with no task.  Only gates are OR nodes.
  datatype Kind = Work | Pass | External

  datatype Spec = Spec(kind: Kind, isOr: bool)

  datatype Life =
    | Unfired
    | Fired(cancelled: bool)            // won the `submitted` exchange; the cancel flag is read next
    | Dispatching
    | Running                           // queued or running
    | Armed                             // an external node waiting for its signal
    | Walking(cancelled: bool, visited: nat, target: nat, at: nat)  // WalkAndSeal
    | Ended(cancelled: bool)            // sealed

  datatype Stage =
    | Fresh                             // AddDependency: the count is raised next
    | Counted                           // the edge list head is loaded next
    | Loaded(length: nat)               // head seen open; the compare-and-swap comes next
    | Late(cancelled: bool)             // head seen sealed; the adder notifies
    | Linked
    | Told                              // notified by the adder

  datatype Edge = Edge(dependent: nat, dependency: nat, stage: Stage)

  datatype State = State(
    specs: seq<Spec>,
    life: seq<Life>,
    left: seq<int>,                     // dependencies_left
    signalled: seq<bool>,               // EXT_SIGNALLED
    list: seq<seq<nat>>,
    edges: seq<Edge>,
    fires: multiset<(nat, bool)>,
    cancelled: bool,
    submitted: bool,
    scan: nat,                          // Submit has looked for roots among the nodes below this
    completions: seq<nat>,              // history: completed-notifications per edge
    cancellations: seq<nat>,            // history: cancelled-notifications per edge
    late: seq<bool>)                    // history: the edge was counted when its dependent was already starting

  datatype Event =
    | NewEdge(dependent: nat, dependency: nat)
    | AddStep(e: nat)
    | Submit
    | SubmitStep
    | Cancel
    | Fire(n: nat, c: bool)
    | NodeStep(n: nat, refused: bool)   // refused: the scheduler did not take the task
    | TaskEnds(n: nat, discarded: bool)
    | Signal(n: nat)

  predicate Shape(s: State) {
    var n := |s.specs|;
    && |s.life| == n && |s.left| == n && |s.signalled| == n && |s.list| == n && s.scan <= n
    && |s.completions| == |s.edges| && |s.cancellations| == |s.edges| && |s.late| == |s.edges|
    && (forall e | 0 <= e < |s.edges| :: s.edges[e].dependent < n && s.edges[e].dependency < n)
    && (forall d, k | 0 <= d < n && 0 <= k < |s.list[d]| :: s.list[d][k] < |s.edges|)
    && (forall f | f in s.fires :: f.0 < n)
  }

  function Init(specs: seq<Spec>): State {
    var n := |specs|;
    State(specs, seq(n, _ => Unfired), seq(n, _ => 0), seq(n, _ => false), seq(n, _ => []), [],
          multiset{}, false, false, 0, [], [], [])
  }

  // ---------- the steps ----------

  function SetLife(s: State, n: nat, l: Life): (s': State)
    requires Shape(s) && n < |s.life|
    ensures Shape(s') && s'.specs == s.specs
  {
    s.(life := s.life[n := l])
  }

  function SetStage(s: State, e: nat, st: Stage): (s': State)
    requires Shape(s) && e < |s.edges|
    ensures Shape(s') && s'.specs == s.specs && |s'.edges| == |s.edges|
  {
    s.(edges := s.edges[e := s.edges[e].(stage := st)])
  }

  // One edge notifies its dependent that its dependency has ended.
  function Notify(s: State, e: nat, cancelled: bool): (s': State)
    requires Shape(s) && e < |s.edges|
    ensures Shape(s') && s'.specs == s.specs && s'.edges == s.edges && s'.life == s.life && s'.list == s.list
  {
    var n := s.edges[e].dependent;
    if cancelled then
      s.(cancellations := s.cancellations[e := s.cancellations[e] + 1], fires := s.fires + multiset{(n, true)})
    else
      var t := s.(completions := s.completions[e := s.completions[e] + 1]);
      if s.specs[n].isOr then t.(fires := t.fires + multiset{(n, false)})
      else
        t.(left := t.left[n := t.left[n] - 1],
           fires := if s.left[n] - 1 == 0 then t.fires + multiset{(n, false)} else t.fires)
  }

  function LinkEdge(s: State, e: nat, d: nat): (s': State)
    requires Shape(s) && e < |s.edges| && d < |s.specs|
    ensures Shape(s') && s'.specs == s.specs
  {
    SetStage(s, e, Linked).(list := s.list[d := s.list[d] + [e]])
  }

  // Fired as completed and not turned into a cancellation since.
  predicate Clean(l: Life) {
    match l
    case Unfired => false
    case Fired(c) => !c
    case Dispatching => true
    case Running => true
    case Armed => true
    case Walking(c, _, _, _) => !c
    case Ended(c) => !c
  }

  // The node has fired as completed, or a call of Fire that would is on its way.
  predicate Starting(s: State, n: nat)
    requires Shape(s) && n < |s.specs|
  {
    Clean(s.life[n]) || (n, false) in s.fires
  }

  function StepAdd(s: State, e: nat): (s': State)
    requires Shape(s) && e < |s.edges|
    ensures Shape(s') && s'.specs == s.specs
  {
    var Edge(n, d, stage) := s.edges[e];
    match stage
    case Fresh =>
      SetStage(s, e, Counted).(left := s.left[n := s.left[n] + 1],
                               late := s.late[e := Starting(s, n)])
    case Counted =>
      SetStage(s, e, if s.life[d].Ended? then Late(s.life[d].cancelled) else Loaded(|s.list[d]|))
    case Loaded(k) =>
      if s.life[d].Ended? then SetStage(s, e, Late(s.life[d].cancelled))
      else if |s.list[d]| == k then LinkEdge(s, e, d)
      else SetStage(s, e, Loaded(|s.list[d]|))
    case Late(c) => Notify(SetStage(s, e, Told), e, c)
    case Linked => s
    case Told => s
  }

  // WalkAndSeal's first load of the list head.
  function WalkFrom(s: State, n: nat, cancelled: bool): Life
    requires Shape(s) && n < |s.specs|
  {
    Walking(cancelled, 0, |s.list[n]|, |s.list[n]|)
  }

  predicate Visiting(s: State, n: nat)
    requires Shape(s) && n < |s.specs|
  {
    var l := s.life[n];
    l.Walking? && l.visited < l.at <= |s.list[n]|
  }

  // What a node's own step makes of it, when it does not notify.
  function NextLife(s: State, n: nat, refused: bool): Life
    requires Shape(s) && n < |s.specs|
  {
    match s.life[n]
    case Fired(c) => if c || s.cancelled then WalkFrom(s, n, true) else Dispatching
    case Dispatching =>
      (match s.specs[n].kind
       case Pass => WalkFrom(s, n, false)
       case External => if s.signalled[n] then WalkFrom(s, n, false) else Armed
       case Work => if refused then WalkFrom(s, n, true) else Running)
    case Walking(c, visited, target, at) =>
      if |s.list[n]| == target then Ended(c) else Walking(c, target, |s.list[n]|, |s.list[n]|)
    case l => l
  }

  function StepNode(s: State, n: nat, refused: bool): (s': State)
    requires Shape(s) && n < |s.specs|
    ensures Shape(s') && s'.specs == s.specs
  {
    if Visiting(s, n) then
      var Walking(c, visited, target, at) := s.life[n];
      Notify(SetLife(s, n, Walking(c, visited, target, at - 1)), s.list[n][at - 1], c)
    else SetLife(s, n, NextLife(s, n, refused))
  }

  function AppendEdge(s: State, n: nat, d: nat): (s': State)
    requires Shape(s) && n < |s.specs| && d < |s.specs|
    ensures Shape(s') && s'.specs == s.specs
  {
    s.(edges := s.edges + [Edge(n, d, Fresh)], completions := s.completions + [0],
       cancellations := s.cancellations + [0], late := s.late + [false])
  }

  // Submit's look for roots.
  function ScanNode(s: State): (s': State)
    requires Shape(s) && s.scan < |s.specs|
    ensures Shape(s') && s'.specs == s.specs
  {
    s.(scan := s.scan + 1,
       fires := if s.left[s.scan] == 0 then s.fires + multiset{(s.scan, false)} else s.fires)
  }

  // A pending call of Fire makes its exchange of `submitted`.
  function FireNode(s: State, n: nat, c: bool): (s': State)
    requires Shape(s) && (n, c) in s.fires
    ensures Shape(s') && s'.specs == s.specs
  {
    var t := s.(fires := s.fires - multiset{(n, c)});
    if s.life[n].Unfired? then SetLife(t, n, Fired(c)) else t
  }

  function EndTask(s: State, n: nat, discarded: bool): (s': State)
    requires Shape(s) && n < |s.specs|
    ensures Shape(s') && s'.specs == s.specs
  {
    SetLife(s, n, WalkFrom(s, n, discarded))
  }

  // SignalExternal's first signal: an armed node finishes here.
  function SignalNode(s: State, n: nat): (s': State)
    requires Shape(s) && n < |s.specs|
    ensures Shape(s') && s'.specs == s.specs
  {
    SetLife(s, n, if s.life[n].Armed? then WalkFrom(s, n, false) else s.life[n]).(signalled := s.signalled[n := true])
  }

  function Step(s: State, e: Event): (s': State)
    requires Shape(s)
    ensures Shape(s') && s'.specs == s.specs
  {
    match e
    case NewEdge(n, d) =>
      if n < |s.specs| && d < |s.specs| then AppendEdge(s, n, d) else s
    case AddStep(i) => if i < |s.edges| then StepAdd(s, i) else s
    case Submit =>
      s.(submitted := true)
    case SubmitStep => if s.submitted && s.scan < |s.specs| then ScanNode(s) else s
    case Cancel => s.(cancelled := true)
    case Fire(n, c) => if (n, c) in s.fires then FireNode(s, n, c) else s
    case NodeStep(n, refused) => if n < |s.specs| then StepNode(s, n, refused) else s
    case TaskEnds(n, discarded) => if n < |s.specs| && s.life[n].Running? then EndTask(s, n, discarded) else s
    case Signal(n) => if n < |s.specs| && !s.signalled[n] then SignalNode(s, n) else s
  }

  function Run(s: State, events: seq<Event>): (s': State)
    requires Shape(s)
    ensures Shape(s') && s'.specs == s.specs
  {
    if events == [] then s
    else Step(Run(s, events[..|events| - 1]), events[|events| - 1])
  }

  // ---------- the invariant: edges ----------

  // The walk has notified the edge at this position of the list.
  predicate Visited(l: Life, k: nat) {
    match l
    case Walking(_, visited, target, at) => k < visited || at <= k < target
    case Ended(_) => true
    case _ => false
  }

  predicate Finishing(l: Life) {
    l.Walking? || l.Ended?
  }

  // Exactly the notification that the outcome calls for, or none.
  predicate Tally(s: State, e: nat, told: bool, cancelled: bool)
    requires Shape(s) && e < |s.edges|
  {
    && s.completions[e] == (if told && !cancelled then 1 else 0)
    && s.cancellations[e] == (if told && cancelled then 1 else 0)
  }

  predicate ListOk(s: State, d: nat)
    requires Shape(s) && d < |s.specs|
  {
    var xs, l := s.list[d], s.life[d];
    && (forall i, j | 0 <= i < j < |xs| :: xs[i] != xs[j])
    && (forall k | 0 <= k < |xs| ::
          && s.edges[xs[k]].stage.Linked? && s.edges[xs[k]].dependency == d
          && Tally(s, xs[k], Visited(l, k), Finishing(l) && l.cancelled))
    && (l.Walking? ==> l.visited <= l.at <= l.target <= |xs|)
  }

  predicate EdgeOk(s: State, e: nat)
    requires Shape(s) && e < |s.edges|
  {
    var Edge(_, d, stage) := s.edges[e];
    match stage
    case Fresh => Tally(s, e, false, false)
    case Counted => Tally(s, e, false, false)
    case Loaded(_) => Tally(s, e, false, false)
    case Late(c) => Tally(s, e, false, false) && s.life[d] == Ended(c)
    case Linked => e in s.list[d]
    case Told => s.life[d].Ended? && Tally(s, e, true, s.life[d].cancelled)
  }

  predicate EdgesOk(s: State)
    requires Shape(s)
  {
    && (forall d | 0 <= d < |s.specs| :: ListOk(s, d))
    && (forall e | 0 <= e < |s.edges| :: EdgeOk(s, e))
  }

  // ---------- the invariant: counts, pending fires, starts ----------

  // The edges that dependencies_left still counts.
  function Owed(s: State, n: nat): set<nat>
    requires Shape(s) && n < |s.specs|
  {
    set e | 0 <= e < |s.edges| && s.edges[e].dependent == n && !s.edges[e].stage.Fresh?
            && (s.specs[n].isOr || s.completions[e] == 0)
  }

  predicate LeftOk(s: State)
    requires Shape(s)
  {
    forall n | 0 <= n < |s.specs| :: s.left[n] == |Owed(s, n)|
  }

  // The node has fired, or a call of Fire for it is on its way.
  predicate Coming(s: State, n: nat)
    requires Shape(s) && n < |s.specs|
  {
    !s.life[n].Unfired? || (n, true) in s.fires || (n, false) in s.fires
  }

  predicate FireOk(s: State)
    requires Shape(s)
  {
    && (!s.submitted ==>
          s.fires == multiset{} && s.scan == 0 && forall n | 0 <= n < |s.specs| :: s.life[n].Unfired?)
    && (forall n | 0 <= n < s.scan && s.left[n] == 0 :: Coming(s, n))
    && (forall e | 0 <= e < |s.edges| && s.cancellations[e] > 0 :: Coming(s, s.edges[e].dependent))
    && (forall e | 0 <= e < |s.edges| && s.completions[e] > 0 && s.specs[s.edges[e].dependent].isOr ::
          Coming(s, s.edges[e].dependent))
    && (forall e | 0 <= e < |s.edges| && s.late[e] :: Coming(s, s.edges[e].dependent))
  }

  // The edge leads into n and was counted, by a call before Submit or after, while n was not starting yet.
  predicate Early(s: State, e: nat, n: nat)
    requires Shape(s) && e < |s.edges|
  {
    s.edges[e].dependent == n && !s.edges[e].stage.Fresh? && !s.late[e]
  }

  // Every early edge of n has been told of a completion.
  predicate Met(s: State, n: nat)
    requires Shape(s)
  {
    forall e | 0 <= e < |s.edges| && Early(s, e, n) :: s.completions[e] > 0
  }

  // Some edge of n has been told of a completion, or n has no early edge.
  predicate MetOne(s: State, n: nat)
    requires Shape(s)
  {
    || (forall e | 0 <= e < |s.edges| :: !Early(s, e, n))
    || (exists e :: 0 <= e < |s.edges| && s.edges[e].dependent == n && s.completions[e] > 0)
  }

  predicate Needs(s: State, n: nat)
    requires Shape(s) && n < |s.specs|
  {
    if s.specs[n].isOr then MetOne(s, n) else Met(s, n)
  }

  // A node that was fired as completed, or is about to be, had its dependencies met.
  predicate StartOk(s: State)
    requires Shape(s)
  {
    forall n | 0 <= n < |s.specs| && Starting(s, n) :: Needs(s, n)
  }

  predicate ArmedOk(s: State)
    requires Shape(s)
  {
    forall n | 0 <= n < |s.specs| && s.life[n].Armed? :: !s.signalled[n]
  }

  predicate RestOk(s: State)
    requires Shape(s)
  {
    LeftOk(s) && FireOk(s) && StartOk(s) && ArmedOk(s)
  }

  predicate Inv(s: State) {
    Shape(s) && EdgesOk(s) && RestOk(s)
  }

  // ---------- preservation: edges ----------

  // A step that leaves edges, lists and tallies alone and starts, advances or ends no walk.
  lemma EdgesStill(s: State, s': State)
    requires Shape(s) && EdgesOk(s) && Shape(s') && s'.specs == s.specs && s'.edges == s.edges && s'.list == s.list
    requires s'.completions == s.completions && s'.cancellations == s.cancellations
    requires forall d | 0 <= d < |s.specs| ::
               s'.life[d] == s.life[d] || (!Finishing(s.life[d]) && !Finishing(s'.life[d]))
    ensures EdgesOk(s')
  {
    forall d | 0 <= d < |s.specs| ensures ListOk(s', d) { assert ListOk(s, d); }
    forall e | 0 <= e < |s.edges| ensures EdgeOk(s', e) { assert EdgeOk(s, e); }
  }

  // Node n's walk starts, moves its window on, or ends: no position changes from visited to not or back.
  lemma EdgesWalk(s: State, s': State, n: nat, l: Life)
    requires Shape(s) && EdgesOk(s) && Shape(s') && s'.specs == s.specs && s'.edges == s.edges && s'.list == s.list
    requires s'.completions == s.completions && s'.cancellations == s.cancellations
    requires n < |s.specs| && s'.life == s.life[n := l] && Finishing(l) && !s.life[n].Ended?
    requires s.life[n].Walking? ==> l.cancelled == s.life[n].cancelled
    requires forall k | 0 <= k < |s.list[n]| :: Visited(l, k) == Visited(s.life[n], k)
    requires l.Walking? ==> l.visited <= l.at <= l.target <= |s.list[n]|
    ensures EdgesOk(s')
  {
    forall d | 0 <= d < |s.specs| ensures ListOk(s', d) { assert ListOk(s, d); }
    forall e | 0 <= e < |s.edges| ensures EdgeOk(s', e) { assert EdgeOk(s, e); }
  }

  // The walk of node n moves its cursor down over edge e and tallies it.
  lemma EdgesTallied(s: State, s': State, n: nat, e: nat)
    requires Shape(s) && EdgesOk(s) && Shape(s') && s'.specs == s.specs && s'.edges == s.edges && s'.list == s.list
    requires n < |s.specs| && e < |s.edges| && s.life[n].Walking? && s.life[n].visited < s.life[n].at <= |s.list[n]|
    requires e == s.list[n][s.life[n].at - 1]
    requires s'.life == s.life[n := s.life[n].(at := s.life[n].at - 1)]
    requires forall x | 0 <= x < |s.edges| && x != e ::
               s'.completions[x] == s.completions[x] && s'.cancellations[x] == s.cancellations[x]
    requires s'.completions[e] == s.completions[e] + (if s.life[n].cancelled then 0 else 1)
    requires s'.cancellations[e] == s.cancellations[e] + (if s.life[n].cancelled then 1 else 0)
    ensures EdgesOk(s')
  {
    assert ListOk(s, n);
    forall d | 0 <= d < |s.specs| && d != n ensures ListOk(s', d) {
      assert ListOk(s, d);
      assert forall k | 0 <= k < |s.list[d]| :: s.list[d][k] != e;
    }
    assert ListOk(s', n);
    forall x | 0 <= x < |s.edges| ensures EdgeOk(s', x) { assert EdgeOk(s, x); }
  }

  lemma EdgesVisit(s: State, n: nat, refused: bool)
    requires Shape(s) && EdgesOk(s) && n < |s.specs| && s.life[n].Walking? && s.life[n].visited < s.life[n].at
    ensures EdgesOk(StepNode(s, n, refused))
  {
    assert ListOk(s, n);
    EdgesTallied(s, StepNode(s, n, refused), n, s.list[n][s.life[n].at - 1]);
  }

  // An adder's step that only moves its own stage.
  lemma EdgesStage(s: State, s': State, e: nat, st: Stage)
    requires Shape(s) && EdgesOk(s) && e < |s.edges| && !s.edges[e].stage.Linked?
    requires Shape(s') && s'.specs == s.specs && s'.list == s.list && s'.life == s.life
    requires s'.edges == s.edges[e := s.edges[e].(stage := st)]
    requires forall x | 0 <= x < |s.edges| && x != e ::
               s'.completions[x] == s.completions[x] && s'.cancellations[x] == s.cancellations[x]
    requires EdgeOk(s', e)
    ensures EdgesOk(s')
  {
    forall d | 0 <= d < |s.specs| ensures ListOk(s', d) { assert ListOk(s, d); }
    forall x | 0 <= x < |s.edges| ensures EdgeOk(s', x) { assert EdgeOk(s, x); }
  }

  // The compare-and-swap succeeds: the edge is behind everything the walk has taken notice of.
  lemma EdgesLink(s: State, e: nat)
    requires Shape(s) && EdgesOk(s) && e < |s.edges| && s.edges[e].stage.Loaded?
    requires !s.life[s.edges[e].dependency].Ended?
    ensures EdgesOk(LinkEdge(s, e, s.edges[e].dependency))
  {
    var d0 := s.edges[e].dependency;
    var s' := LinkEdge(s, e, d0);
    assert EdgeOk(s, e);
    forall d | 0 <= d < |s.specs| ensures ListOk(s', d) {
      assert ListOk(s, d);
      assert forall k | 0 <= k < |s.list[d]| :: s.list[d][k] != e;
    }
    forall x | 0 <= x < |s.edges| ensures EdgeOk(s', x) {
      assert EdgeOk(s, x);
      if x == e { assert s'.list[d0][|s.list[d0]|] == e; }
      else if s.edges[x].stage.Linked? {
        var d := s.edges[x].dependency;
        var k :| 0 <= k < |s.list[d]| && s.list[d][k] == x;
        assert s'.list[d][k] == x;
      }
    }
  }

  lemma AddEdges(s: State, e: nat)
    requires Shape(s) && EdgesOk(s) && e < |s.edges|
    ensures EdgesOk(StepAdd(s, e))
  {
    var s' := StepAdd(s, e);
    var d := s.edges[e].dependency;
    assert EdgeOk(s, e);
    match s.edges[e].stage
    case Fresh => EdgesStage(s, s', e, Counted);
    case Counted => EdgesStage(s, s', e, s'.edges[e].stage);
    case Loaded(k) =>
      if !s.life[d].Ended? && |s.list[d]| == k { EdgesLink(s, e); }
      else { EdgesStage(s, s', e, s'.edges[e].stage); }
    case Late(c) => EdgesStage(s, s', e, Told);
    case Linked =>
    case Told =>
  }

  lemma LaunchEdges(s: State, n: nat, refused: bool)
    requires Shape(s) && EdgesOk(s) && n < |s.specs| && (s.life[n].Fired? || s.life[n].Dispatching?)
    ensures EdgesOk(StepNode(s, n, refused))
  {
    var s' := StepNode(s, n, refused);
    assert s'.life == s.life[n := s'.life[n]];
    if Finishing(s'.life[n]) { EdgesWalk(s, s', n, s'.life[n]); } else { EdgesStill(s, s'); }
  }

  // The compare-and-swap seals the list, or fails because edges were added meanwhile.
  lemma SealEdges(s: State, n: nat, refused: bool)
    requires Shape(s) && EdgesOk(s) && n < |s.specs| && s.life[n].Walking? && s.life[n].visited >= s.life[n].at
    ensures EdgesOk(StepNode(s, n, refused))
  {
    var s' := StepNode(s, n, refused);
    assert ListOk(s, n);
    assert s'.life == s.life[n := s'.life[n]];
    EdgesWalk(s, s', n, s'.life[n]);
  }

  lemma NodeEdges(s: State, n: nat, refused: bool)
    requires Shape(s) && EdgesOk(s) && n < |s.specs|
    ensures EdgesOk(StepNode(s, n, refused))
  {
    match s.life[n]
    case Fired(_) => LaunchEdges(s, n, refused);
    case Dispatching => LaunchEdges(s, n, refused);
    case Walking(_, visited, _, at) =>
      if visited < at { EdgesVisit(s, n, refused); } else { SealEdges(s, n, refused); }
    case _ => assert s.life[n := s.life[n]] == s.life;
  }

  lemma NewEdgeEdges(s: State, n: nat, d: nat)
    requires Shape(s) && EdgesOk(s) && n < |s.specs| && d < |s.specs|
    ensures EdgesOk(AppendEdge(s, n, d))
  {
    var s' := AppendEdge(s, n, d);
    forall x | 0 <= x < |s.specs| ensures ListOk(s', x) {
      assert ListOk(s, x);
      forall k | 0 <= k < |s.list[x]|
        ensures Tally(s', s.list[x][k], Visited(s.life[x], k), Finishing(s.life[x]) && s.life[x].cancelled)
      {
        assert Tally(s, s.list[x][k], Visited(s.life[x], k), Finishing(s.life[x]) && s.life[x].cancelled);
      }
    }
    forall x | 0 <= x < |s'.edges| ensures EdgeOk(s', x) { if x < |s.edges| { assert EdgeOk(s, x); } }
  }

  // A node that was not finishing begins its walk, or does not.
  lemma BeginEdges(s: State, s': State, n: nat, l: Life)
    requires Shape(s) && EdgesOk(s) && Shape(s') && s'.specs == s.specs && s'.edges == s.edges && s'.list == s.list
    requires s'.completions == s.completions && s'.cancellations == s.cancellations
    requires n < |s.specs| && s'.life == s.life[n := l] && !Finishing(s.life[n])
    requires Finishing(l) ==> l.Walking? && l.visited == 0 && l.at == l.target == |s.list[n]|
    ensures EdgesOk(s')
  {
    if Finishing(l) { EdgesWalk(s, s', n, l); } else { EdgesStill(s, s'); }
  }

  lemma SignalEdges(s: State, n: nat)
    requires Shape(s) && EdgesOk(s) && n < |s.specs|
    ensures EdgesOk(SignalNode(s, n))
  {
    var s' := SignalNode(s, n);
    if s.life[n].Armed? { BeginEdges(s, s', n, WalkFrom(s, n, false)); }
    else {
      assert s'.life == s.life;
      EdgesStill(s, s');
    }
  }

  lemma FireEdges(s: State, n: nat, c: bool)
    requires Shape(s) && EdgesOk(s) && (n, c) in s.fires
    ensures EdgesOk(FireNode(s, n, c))
  {
    EdgesStill(s, FireNode(s, n, c));
  }

  lemma ScanEdges(s: State)
    requires Shape(s) && EdgesOk(s) && s.scan < |s.specs|
    ensures EdgesOk(ScanNode(s))
  {
    EdgesStill(s, ScanNode(s));
  }

  lemma FlagEdges(s: State, e: Event)
    requires Shape(s) && EdgesOk(s) && (e.Submit? || e.Cancel?)
    ensures EdgesOk(Step(s, e))
  {
    EdgesStill(s, Step(s, e));
  }

  lemma EndEdges(s: State, n: nat, discarded: bool)
    requires Shape(s) && EdgesOk(s) && n < |s.specs| && s.life[n].Running?
    ensures EdgesOk(EndTask(s, n, discarded))
  {
    BeginEdges(s, EndTask(s, n, discarded), n, WalkFrom(s, n, discarded));
  }

  lemma StepEdges(s: State, e: Event)
    requires Shape(s) && EdgesOk(s)
    ensures EdgesOk(Step(s, e))
  {
    match e
    case NewEdge(n, d) => if n < |s.specs| && d < |s.specs| { NewEdgeEdges(s, n, d); }
    case AddStep(i) => if i < |s.edges| { AddEdges(s, i); }
    case Submit => FlagEdges(s, e);
    case SubmitStep => if s.scan < |s.specs| { ScanEdges(s); }
    case Cancel => FlagEdges(s, e);
    case Fire(n, c) => if (n, c) in s.fires { FireEdges(s, n, c); }
    case NodeStep(n, refused) => if n < |s.specs| { NodeEdges(s, n, refused); }
    case TaskEnds(n, discarded) => if n < |s.specs| && s.life[n].Running? { EndEdges(s, n, discarded); }
    case Signal(n) => if n < |s.specs| { SignalEdges(s, n); }
  }

  // ---------- preservation: counts, pending fires, starts ----------

  // Completions do not fall, and no edge becomes an early one.
  predicate EarlyKept(s: State, s': State, n: nat)
    requires Shape(s) && Shape(s')
  {
    && s'.specs == s.specs && |s.edges| <= |s'.edges|
    && (forall e | 0 <= e < |s.edges| ::
          s'.edges[e].dependent == s.edges[e].dependent && s'.completions[e] >= s.completions[e])
    && (forall e | 0 <= e < |s'.edges| && Early(s', e, n) :: e < |s.edges| && Early(s, e, n))
  }

  lemma NeedsKept(s: State, s': State, n: nat)
    requires Shape(s) && Shape(s') && n < |s.specs| && EarlyKept(s, s', n) && Needs(s, n)
    ensures Needs(s', n)
  {
    if s.specs[n].isOr {
      if e :| 0 <= e < |s.edges| && s.edges[e].dependent == n && s.completions[e] > 0 {
        assert s'.edges[e].dependent == n && s'.completions[e] > 0;
      }
    }
  }

  // Same counted edges, same counts, and no node fires or becomes clean.
  predicate Quiet(s: State, s': State)
    requires Shape(s) && Shape(s')
  {
    && s'.specs == s.specs && s'.left == s.left && s'.fires == s.fires && s'.completions == s.completions
    && s'.cancellations == s.cancellations && s'.late == s.late && s'.scan == s.scan && (s.submitted ==> s'.submitted)
    && (forall e | 0 <= e < |s.edges| ::
          s'.edges[e].dependent == s.edges[e].dependent && s'.edges[e].stage.Fresh? == s.edges[e].stage.Fresh?)
    && (forall n | 0 <= n < |s.specs| && s'.life[n] != s.life[n] ::
          !s.life[n].Unfired? && !s'.life[n].Unfired? && (Clean(s'.life[n]) ==> Clean(s.life[n])))
  }

  lemma QuietRest(s: State, s': State)
    requires Shape(s) && Shape(s') && RestOk(s) && Quiet(s, s') && ArmedOk(s')
    ensures RestOk(s')
  {
    forall n | 0 <= n < |s.specs| ensures Owed(s', n) == Owed(s, n) {}
    forall n | 0 <= n < |s.specs| && Starting(s', n)
      ensures Needs(s', n)
    {
      NeedsKept(s, s', n);
    }
  }

  lemma SizeWith(x: set<nat>, y: set<nat>, a: nat)
    requires a !in x && y == x + {a}
    ensures |y| == |x| + 1
  {
  }

  // Edge e joins or leaves what its dependent is owed; nothing else changes.
  predicate OwedBut(s: State, s': State, e: nat)
    requires Shape(s) && Shape(s') && e < |s.edges|
  {
    && s'.specs == s.specs && |s'.edges| == |s.edges|
    && (forall x | 0 <= x < |s.edges| :: s'.edges[x].dependent == s.edges[x].dependent)
    && (forall x | 0 <= x < |s.edges| && x != e ::
          s'.edges[x].stage.Fresh? == s.edges[x].stage.Fresh? && s'.completions[x] == s.completions[x])
  }

  lemma RaiseLeft(s: State, s': State, e: nat)
    requires Shape(s) && Shape(s') && LeftOk(s) && e < |s.edges| && OwedBut(s, s', e)
    requires s.edges[e].stage.Fresh? && !s'.edges[e].stage.Fresh? && s'.completions[e] == 0
    requires s'.left == s.left[s.edges[e].dependent := s.left[s.edges[e].dependent] + 1]
    ensures LeftOk(s')
  {
    forall n | 0 <= n < |s.specs| ensures s'.left[n] == |Owed(s', n)| {
      if n == s.edges[e].dependent { SizeWith(Owed(s, n), Owed(s', n), e); }
      else { assert Owed(s', n) == Owed(s, n); }
    }
  }

  lemma LowerLeft(s: State, s': State, e: nat)
    requires Shape(s) && Shape(s') && LeftOk(s) && e < |s.edges| && OwedBut(s, s', e)
    requires !s.edges[e].stage.Fresh? && !s'.edges[e].stage.Fresh? && s.completions[e] == 0 < s'.completions[e]
    requires var n := s.edges[e].dependent; s'.left == if s.specs[n].isOr then s.left else s.left[n := s.left[n] - 1]
    ensures LeftOk(s')
  {
    forall n | 0 <= n < |s.specs| ensures s'.left[n] == |Owed(s', n)| {
      if n == s.edges[e].dependent && !s.specs[n].isOr { SizeWith(Owed(s', n), Owed(s, n), e); }
      else { assert Owed(s', n) == Owed(s, n); }
    }
  }

  // AddDependency raises the count.
  lemma RaiseRest(s: State, e: nat)
    requires Shape(s) && RestOk(s) && e < |s.edges| && s.edges[e].stage.Fresh? && s.completions[e] == 0
    ensures RestOk(StepAdd(s, e))
  {
    var s' := StepAdd(s, e);
    var n := s.edges[e].dependent;
    RaiseLeft(s, s', e);
    assert s.left[n] == |Owed(s, n)|;
    forall m | 0 <= m < |s.specs| && Starting(s', m)
      ensures Needs(s', m)
    {
      NeedsKept(s, s', m);
    }
    forall m | 0 <= m < s'.scan && s'.left[m] == 0 ensures Coming(s', m) {
      if m != n { assert Coming(s, m); }
    }
  }

  // Nothing owed: every counted edge has been told of a completion.
  lemma NothingOwed(s: State, n: nat)
    requires Shape(s) && LeftOk(s) && n < |s.specs| && s.left[n] == 0
    ensures Needs(s, n)
  {
    assert Owed(s, n) == {};
    forall e | 0 <= e < |s.edges| && Early(s, e, n) ensures !s.specs[n].isOr && s.completions[e] > 0 {
      assert e !in Owed(s, n);
    }
  }

  // Fires are added, completions rise, and every new completed fire is for a node whose needs are met.
  lemma StartGrows(s: State, s': State)
    requires Shape(s) && Shape(s') && StartOk(s)
    requires s'.specs == s.specs && s'.edges == s.edges && s'.life == s.life && s'.late == s.late
    requires forall e | 0 <= e < |s.edges| :: s'.completions[e] >= s.completions[e]
    requires forall n | 0 <= n < |s.specs| && (n, false) in s'.fires && (n, false) !in s.fires ::
               Needs(s', n)
    ensures StartOk(s')
  {
    forall n | 0 <= n < |s.specs| && Starting(s', n)
      ensures Needs(s', n)
    {
      if Starting(s, n) { NeedsKept(s, s', n); }
    }
  }

  lemma NotifyRest(s: State, e: nat, c: bool)
    requires Shape(s) && RestOk(s) && s.submitted && e < |s.edges| && !s.edges[e].stage.Fresh?
    requires s.completions[e] == 0
    ensures RestOk(Notify(s, e, c))
  {
    var s' := Notify(s, e, c);
    var n := s.edges[e].dependent;
    if c {
      forall m | 0 <= m < |s.specs| ensures Owed(s', m) == Owed(s, m) {}
      forall m | 0 <= m < |s.specs| && Coming(s, m) ensures Coming(s', m) {}
    } else {
      LowerLeft(s, s', e);
    }
    NotifyFires(s, e, c);
    if !c && s.specs[n].isOr { assert s'.completions[e] > 0 && Needs(s', n); }
    else if !c && s'.left[n] == 0 { NothingOwed(s', n); }
    StartGrows(s, s');
  }

  lemma NotifyFires(s: State, e: nat, c: bool)
    requires Shape(s) && FireOk(s) && s.submitted && e < |s.edges|
    ensures FireOk(Notify(s, e, c))
  {
    var s' := Notify(s, e, c);
    forall m | 0 <= m < |s.specs| && Coming(s, m) ensures Coming(s', m) {}
    forall m | 0 <= m < s'.scan && s'.left[m] == 0 ensures Coming(s', m) {
      if s.left[m] == 0 { assert Coming(s, m); }
    }
  }

  lemma TellRest(s: State, e: nat)
    requires Inv(s) && e < |s.edges| && s.edges[e].stage.Late?
    ensures RestOk(StepAdd(s, e))
  {
    assert EdgeOk(s, e);
    var t := SetStage(s, e, Told);
    QuietRest(s, t);
    NotifyRest(t, e, s.edges[e].stage.cancelled);
  }

  lemma PlaceRest(s: State, e: nat)
    requires Inv(s) && e < |s.edges| && (s.edges[e].stage.Counted? || s.edges[e].stage.Loaded?)
    ensures RestOk(StepAdd(s, e))
  {
    QuietRest(s, StepAdd(s, e));
  }

  lemma AddRest(s: State, e: nat)
    requires Inv(s) && e < |s.edges|
    ensures RestOk(StepAdd(s, e))
  {
    assert EdgeOk(s, e);
    match s.edges[e].stage
    case Fresh => RaiseRest(s, e);
    case Counted => PlaceRest(s, e);
    case Loaded(_) => PlaceRest(s, e);
    case Late(_) => TellRest(s, e);
    case Linked =>
    case Told =>
  }

  // The walk's step at an edge: the window moves on to l, and the edge is notified.
  lemma VisitIsNotify(s: State, n: nat, refused: bool, l: Life)
    requires Shape(s) && n < |s.specs| && Visiting(s, n) && s.list[n][s.life[n].at - 1] < |s.edges|
    requires var Walking(c, visited, target, at) := s.life[n]; l == Walking(c, visited, target, at - 1)
    ensures StepNode(s, n, refused) == Notify(SetLife(s, n, l), s.list[n][s.life[n].at - 1], s.life[n].cancelled)
  {
  }

  lemma VisitNotifies(s: State, n: nat, e: nat, c: bool, l: Life)
    requires Shape(s) && RestOk(s) && n < |s.specs| && s.submitted
    requires s.life[n].Walking? && l.Walking? && l.cancelled == s.life[n].cancelled
    requires e < |s.edges| && s.edges[e].stage.Linked? && s.completions[e] == 0
    ensures RestOk(Notify(SetLife(s, n, l), e, c))
  {
    LifeRest(s, n, l);
    NotifyRest(SetLife(s, n, l), e, c);
  }

  lemma VisitRest(s: State, n: nat, refused: bool)
    requires Inv(s) && n < |s.specs| && Visiting(s, n)
    ensures RestOk(StepNode(s, n, refused))
  {
    var Walking(c, visited, target, at) := s.life[n];
    var l := Walking(c, visited, target, at - 1);
    VisitFacts(s, n);
    VisitNotifies(s, n, s.list[n][at - 1], c, l);
    VisitIsNotify(s, n, refused, l);
  }

  // The edge that a walk notifies next is linked, counted, and not told of anything yet.
  lemma VisitFacts(s: State, n: nat)
    requires Inv(s) && n < |s.specs| && Visiting(s, n)
    ensures var e := s.list[n][s.life[n].at - 1];
            s.submitted && e < |s.edges| && s.edges[e].stage.Linked? && s.completions[e] == 0
  {
    assert ListOk(s, n);
    assert !Visited(s.life[n], s.life[n].at - 1);
  }

  // A step of node n alone that notifies nobody.
  lemma LifeRest(s: State, n: nat, l: Life)
    requires Shape(s) && RestOk(s) && n < |s.specs| && !s.life[n].Unfired? && !l.Unfired?
    requires Clean(l) ==> Clean(s.life[n])
    requires l.Armed? ==> !s.signalled[n]
    ensures RestOk(SetLife(s, n, l))
  {
    QuietRest(s, SetLife(s, n, l));
  }

  lemma NodeRest(s: State, n: nat, refused: bool)
    requires Inv(s) && n < |s.specs|
    ensures RestOk(StepNode(s, n, refused))
  {
    if Visiting(s, n) { VisitRest(s, n, refused); }
    else if s.life[n].Unfired? { assert SetLife(s, n, Unfired) == s; }
    else { LifeRest(s, n, NextLife(s, n, refused)); }
  }

  // Nothing that the counts or the needs of a node speak of differs.
  predicate SameEdges(s: State, s': State) {
    && s'.specs == s.specs && s'.edges == s.edges && s'.completions == s.completions
    && s'.cancellations == s.cancellations && s'.late == s.late && s'.left == s.left
  }

  lemma SameLeft(s: State, s': State)
    requires Shape(s) && Shape(s') && SameEdges(s, s') && LeftOk(s)
    ensures LeftOk(s')
  {
    forall m | 0 <= m < |s.specs| ensures Owed(s', m) == Owed(s, m) {}
  }

  lemma SameMet(s: State, s': State, n: nat)
    requires Shape(s) && Shape(s') && SameEdges(s, s') && n < |s.specs| && Needs(s, n)
    ensures Needs(s', n)
  {
    NeedsKept(s, s', n);
  }

  // Firing loses no node that is coming, starts none that was not to be started, and arms none.
  lemma FireLife(s: State, n: nat, c: bool, m: nat)
    requires Shape(s) && (n, c) in s.fires && m < |s.specs|
    ensures var s' := FireNode(s, n, c);
            && (Coming(s, m) ==> Coming(s', m))
            && (Starting(s', m) ==> Starting(s, m))
            && (s'.life[m].Armed? ==> s.life[m].Armed?)
  {
  }

  lemma FireFires(s: State, n: nat, c: bool)
    requires Shape(s) && FireOk(s) && (n, c) in s.fires
    ensures FireOk(FireNode(s, n, c))
  {
    assert s.submitted;
    forall m | 0 <= m < |s.specs| && Coming(s, m) ensures Coming(FireNode(s, n, c), m) { FireLife(s, n, c, m); }
  }

  lemma FireRest(s: State, n: nat, c: bool)
    requires Shape(s) && RestOk(s) && (n, c) in s.fires
    ensures RestOk(FireNode(s, n, c))
  {
    var s' := FireNode(s, n, c);
    SameLeft(s, s');
    FireFires(s, n, c);
    forall m | 0 <= m < |s.specs| && Starting(s', m)
      ensures Needs(s', m)
    {
      FireLife(s, n, c, m);
      SameMet(s, s', m);
    }
    forall m | 0 <= m < |s.specs| && s'.life[m].Armed? ensures !s'.signalled[m] { FireLife(s, n, c, m); }
  }

  lemma ScanFires(s: State)
    requires Shape(s) && FireOk(s) && s.submitted && s.scan < |s.specs|
    ensures FireOk(ScanNode(s))
  {
    var s' := ScanNode(s);
    forall m | 0 <= m < |s.specs| && Coming(s, m) ensures Coming(s', m) {}
  }

  lemma ScanRest(s: State)
    requires Shape(s) && RestOk(s) && s.submitted && s.scan < |s.specs|
    ensures RestOk(ScanNode(s))
  {
    var s' := ScanNode(s);
    SameLeft(s, s');
    ScanFires(s);
    if s.left[s.scan] == 0 { NothingOwed(s', s.scan); }
    StartGrows(s, s');
  }

  lemma NewEdgeLeft(s: State, n: nat, d: nat)
    requires Shape(s) && LeftOk(s) && n < |s.specs| && d < |s.specs|
    ensures LeftOk(AppendEdge(s, n, d))
  {
    forall m | 0 <= m < |s.specs| ensures Owed(AppendEdge(s, n, d), m) == Owed(s, m) {}
  }

  lemma NewEdgeRest(s: State, n: nat, d: nat)
    requires Shape(s) && RestOk(s) && n < |s.specs| && d < |s.specs|
    ensures RestOk(AppendEdge(s, n, d))
  {
    var s' := AppendEdge(s, n, d);
    NewEdgeLeft(s, n, d);
    forall m | 0 <= m < |s.specs| && Starting(s', m)
      ensures Needs(s', m)
    {
      NeedsKept(s, s', m);
    }
  }

  lemma OutsideRest(s: State, e: Event)
    requires Inv(s) && (e.Submit? || e.SubmitStep? || e.Cancel? || e.NewEdge?)
    ensures RestOk(Step(s, e))
  {
    if e.NewEdge? {
      if e.dependent < |s.specs| && e.dependency < |s.specs| { NewEdgeRest(s, e.dependent, e.dependency); }
    } else if e.SubmitStep? {
      if s.submitted && s.scan < |s.specs| { ScanRest(s); }
    } else {
      QuietRest(s, Step(s, e));
    }
  }

  lemma SignalRest(s: State, n: nat)
    requires Shape(s) && RestOk(s) && n < |s.specs|
    ensures RestOk(SignalNode(s, n))
  {
    var s' := SignalNode(s, n);
    QuietRest(s, s');
  }

  lemma StepInv(s: State, e: Event)
    requires Inv(s)
    ensures Inv(Step(s, e))
  {
    StepEdges(s, e);
    match e
    case AddStep(i) => if i < |s.edges| { AddRest(s, i); }
    case Fire(n, c) => if (n, c) in s.fires { FireRest(s, n, c); }
    case NodeStep(n, refused) => if n < |s.specs| { NodeRest(s, n, refused); }
    case TaskEnds(n, discarded) =>
      if n < |s.specs| && s.life[n].Running? { LifeRest(s, n, WalkFrom(s, n, discarded)); }
    case Signal(n) => if n < |s.specs| { SignalRest(s, n); }
    case _ => OutsideRest(s, e);
  }

  lemma {:induction false} RunInv(specs: seq<Spec>, events: seq<Event>)
    ensures Inv(Run(Init(specs), events))
  {
    if events == [] {
      var s := Init(specs);
      forall n | 0 <= n < |specs| ensures s.left[n] == |Owed(s, n)| { assert Owed(s, n) == {}; }
    } else {
      RunInv(specs, events[..|events| - 1]);
      StepInv(Run(Init(specs), events[..|events| - 1]), events[|events| - 1]);
    }
  }

  // ---------- what every run keeps ----------

  // The adder of this edge has finished.
  predicate Settled(stage: Stage) {
    stage.Linked? || stage.Told?
  }

  /**
    The race of AddDependency with a finishing node: an edge notifies its dependent at most
    once, and once its dependency has ended and its adder has returned, exactly once and with
    the outcome the dependency ended with.
   */
  lemma NotifiedOnce(specs: seq<Spec>, events: seq<Event>, e: nat)
    requires e < |Run(Init(specs), events).edges|
    ensures var s := Run(Init(specs), events);
            && s.completions[e] + s.cancellations[e] <= 1
            && (var d := s.life[s.edges[e].dependency];
                && (s.completions[e] > 0 ==> Finishing(d) && !d.cancelled)
                && (s.cancellations[e] > 0 ==> Finishing(d) && d.cancelled)
                && (d.Ended? && Settled(s.edges[e].stage) ==>
                      if d.cancelled then s.cancellations[e] == 1 else s.completions[e] == 1))
  {
    RunInv(specs, events);
    var s := Run(Init(specs), events);
    assert EdgeOk(s, e);
    var d := s.edges[e].dependency;
    assert ListOk(s, d);
    if s.edges[e].stage.Linked? {
      var k :| 0 <= k < |s.list[d]| && s.list[d][k] == e;
      assert Tally(s, s.list[d][k], Visited(s.life[d], k), Finishing(s.life[d]) && s.life[d].cancelled);
    }
  }

  /**
    An AND node that is dispatched (its task queued, its walk begun as completed, or waiting for
    its signal), or about to be, has every dependency already finished as completed whose edge was counted before the
    node was starting, whether AddDependency was called before Submit or raced with the run.
   */
  lemma StartsAfterDependencies(specs: seq<Spec>, events: seq<Event>, e: nat)
    requires var s := Run(Init(specs), events);
             && e < |s.edges| && !s.edges[e].stage.Fresh? && !s.late[e]
             && var n := s.edges[e].dependent; !specs[n].isOr && Starting(s, n)
    ensures var s := Run(Init(specs), events);
            var d := s.life[s.edges[e].dependency];
            Finishing(d) && !d.cancelled
  {
    RunInv(specs, events);
    var s := Run(Init(specs), events);
    assert Needs(s, s.edges[e].dependent) && Early(s, e, s.edges[e].dependent);
    NotifiedOnce(specs, events, e);
  }

  /** An OR node with an edge counted before it was starting is dispatched, or about to be, only when
      some dependency has finished as completed. */
  lemma OrStartsAfterOne(specs: seq<Spec>, events: seq<Event>, e: nat)
    requires var s := Run(Init(specs), events);
             && e < |s.edges| && !s.edges[e].stage.Fresh? && !s.late[e]
             && var n := s.edges[e].dependent; specs[n].isOr && Starting(s, n)
    ensures var s := Run(Init(specs), events);
            exists x :: 0 <= x < |s.edges| && s.edges[x].dependent == s.edges[e].dependent
                        && var d := s.life[s.edges[x].dependency]; Finishing(d) && !d.cancelled
  {
    RunInv(specs, events);
    var s := Run(Init(specs), events);
    var n := s.edges[e].dependent;
    assert Needs(s, n) && Early(s, e, n);
    var x :| 0 <= x < |s.edges| && s.edges[x].dependent == n && s.completions[x] > 0;
    NotifiedOnce(specs, events, x);
  }

  /** An edge counted when its dependent was already starting holds nobody back: the dependent has
      fired, or is about to. */
  lemma LateEdgeHoldsNobody(specs: seq<Spec>, events: seq<Event>, e: nat)
    requires var s := Run(Init(specs), events); e < |s.edges| && s.late[e]
    ensures var s := Run(Init(specs), events); Coming(s, s.edges[e].dependent)
  {
    RunInv(specs, events);
  }

  lemma RunSnoc(s: State, events: seq<Event>, e: Event)
    requires Shape(s)
    ensures Run(s, events + [e]) == Step(Run(s, events), e)
  {
    assert (events + [e])[..|events|] == events;
  }

  /** Nor is it waited for: with a completed fire pending, an edge counted now is late, and the node
      fires as completed whatever its dependency does. */
  lemma LateEdgeIsNotAwaited(s: State, e: nat)
    requires Shape(s) && e < |s.edges| && s.edges[e].stage.Fresh?
    requires var n := s.edges[e].dependent; s.life[n].Unfired? && (n, false) in s.fires
    ensures var n := s.edges[e].dependent;
            var s' := Step(Step(s, AddStep(e)), Fire(n, false));
            && s'.late[e] && Clean(s'.life[n]) && (forall d | 0 <= d < |s.specs| && d != n :: s'.life[d] == s.life[d])
  {
  }

  // Submit has found the first of two nodes ready; an edge that would make it wait for the second comes up.
  function TooLate(specs: seq<Spec>): (s: State)
    requires |specs| == 2
    ensures Shape(s) && s.specs == specs
  {
    AppendEdge(ScanNode(Init(specs).(submitted := true)), 0, 1)
  }

  lemma TooLateReached(specs: seq<Spec>)
    requires |specs| == 2
    ensures Run(Init(specs), [Submit] + [SubmitStep] + [NewEdge(0, 1)]) == TooLate(specs)
  {
    var s0 := Init(specs);
    var s1 := s0.(submitted := true);
    assert Run(s0, [Submit]) == s1 by { assert [Submit][..0] == []; }
    assert Run(s0, [Submit] + [SubmitStep]) == ScanNode(s1) by { RunSnoc(s0, [Submit], SubmitStep); }
    RunSnoc(s0, [Submit] + [SubmitStep], NewEdge(0, 1));
  }

  lemma TooLateFacts(specs: seq<Spec>)
    requires |specs| == 2
    ensures var s := TooLate(specs);
            && s.life == [Unfired, Unfired] && s.edges == [Edge(0, 1, Fresh)] && s.late == [false] && (0, false) in s.fires
  {
  }

  lemma TooLateStarts(specs: seq<Spec>)
    requires |specs| == 2
    ensures var s := Step(Step(TooLate(specs), AddStep(0)), Fire(0, false));
            s.late == [true] && Clean(s.life[s.edges[0].dependent]) && s.life[s.edges[0].dependency].Unfired?
  {
    TooLateFacts(specs);
    var s := TooLate(specs);
    hide TooLate;
    LateEdgeIsNotAwaited(s, 0);
    LateEdgeKept(s);
  }

  lemma LateEdgeKept(s: State)
    requires Shape(s) && s.edges == [Edge(0, 1, Fresh)] && (0, false) in s.fires && |s.specs| == 2
    ensures var s' := Step(Step(s, AddStep(0)), Fire(0, false));
            |s'.late| == 1 && |s'.edges| == 1 && s'.edges[0].dependent == 0 && s'.edges[0].dependency == 1
  {
    var s1 := Step(s, AddStep(0));
    assert s1.edges == [Edge(0, 1, Counted)] && s1.fires == s.fires;
  }

  /** A run in which a node has started and its dependency has not. */
  lemma StartedBeforeDependency(specs: seq<Spec>) returns (events: seq<Event>)
    requires |specs| == 2
    ensures var s := Run(Init(specs), events);
            s.late == [true] && Clean(s.life[s.edges[0].dependent]) && s.life[s.edges[0].dependency].Unfired?
  {
    var before := [Submit] + [SubmitStep] + [NewEdge(0, 1)];
    events := before + [AddStep(0)] + [Fire(0, false)];
    TooLateReached(specs);
    TooLateStarts(specs);
    RunSnoc(Init(specs), before, AddStep(0));
    RunSnoc(Init(specs), before + [AddStep(0)], Fire(0, false));
  }

  function Rank(l: Life): nat {
    match l
    case Unfired => 0
    case Fired(_) => 1
    case Dispatching => 2
    case Running => 3
    case Armed => 3
    case Walking(_, _, _, _) => 4
    case Ended(_) => 5
  }

  // A node's life only moves forward, its outcome is fixed when its walk begins, and the end is final.
  predicate Onward(l: Life, l': Life) {
    && Rank(l) <= Rank(l')
    && (Finishing(l) ==> l'.cancelled == l.cancelled)
    && (l.Ended? ==> l' == l)
  }

  lemma NodeOnward(s: State, m: nat, refused: bool, n: nat)
    requires Shape(s) && n < |s.specs| && m < |s.specs|
    ensures Onward(s.life[n], StepNode(s, m, refused).life[n])
  {
    if !Visiting(s, m) { NextOnward(s, m, refused); }
  }

  lemma NextOnward(s: State, m: nat, refused: bool)
    requires Shape(s) && m < |s.specs|
    ensures Onward(s.life[m], NextLife(s, m, refused))
  {
  }

  lemma AddKeepsLife(s: State, i: nat)
    requires Shape(s) && i < |s.edges|
    ensures StepAdd(s, i).life == s.life
  {
  }

  lemma FireOnward(s: State, m: nat, c: bool, n: nat)
    requires Shape(s) && n < |s.specs| && (m, c) in s.fires
    ensures Onward(s.life[n], FireNode(s, m, c).life[n])
  {
  }

  lemma SignalOnward(s: State, m: nat, n: nat)
    requires Shape(s) && n < |s.specs| && m < |s.specs|
    ensures Onward(s.life[n], SignalNode(s, m).life[n])
  {
  }

  lemma StepOnward(s: State, e: Event, n: nat)
    requires Shape(s) && n < |s.specs|
    ensures Onward(s.life[n], Step(s, e).life[n])
  {
    hide StepAdd, StepNode, FireNode, SignalNode;
    match e
    case NodeStep(m, refused) => if m < |s.specs| { NodeOnward(s, m, refused, n); }
    case AddStep(i) => if i < |s.edges| { AddKeepsLife(s, i); }
    case Fire(m, c) => if (m, c) in s.fires { FireOnward(s, m, c, n); }
    case Signal(m) => if m < |s.specs| { SignalOnward(s, m, n); }
    case _ =>
  }

  /** No node fires twice, ends twice, or changes its outcome, in any run. */
  lemma {:induction false} EndsOnce(s: State, events: seq<Event>, n: nat)
    requires Shape(s) && n < |s.specs|
    ensures Onward(s.life[n], Run(s, events).life[n])
  {
    if events != [] {
      EndsOnce(s, events[..|events| - 1], n);
      StepOnward(Run(s, events[..|events| - 1]), events[|events| - 1], n);
    }
  }

  // ---------- cancellation and completion at rest ----------

  // Nobody is in the middle of anything: no call pending, no task running, no edge being added,
  // no signal outstanding.
  predicate AtRest(s: State)
    requires Shape(s)
  {
    && s.submitted && s.scan == |s.specs| && s.fires == multiset{}
    && (forall n | 0 <= n < |s.specs| :: s.life[n].Unfired? || s.life[n].Ended?)
    && (forall e | 0 <= e < |s.edges| :: Settled(s.edges[e].stage))
  }

  function Dependents(s: State, d: nat): seq<nat>
    requires Shape(s) && d < |s.specs|
  {
    seq(|s.list[d]|, k requires 0 <= k < |s.list[d]| => s.edges[s.list[d][k]].dependent)
  }

  // The graph that HasCycle walks.
  function Graph(s: State): DagCycle.Graph
    requires Shape(s)
  {
    seq(|s.specs|, d requires 0 <= d < |s.specs| => Dependents(s, d))
  }

  // A node that has not fired waits for one that has not fired either.
  lemma WaitsForUnfired(s: State, n: nat) returns (d: nat)
    requires Inv(s) && AtRest(s) && n < |s.specs| && s.life[n].Unfired?
    ensures d < |s.specs| && s.life[d].Unfired? && DagCycle.Edge(Graph(s), d, n)
  {
    assert !Coming(s, n);
    assert Owed(s, n) != {};
    var e :| e in Owed(s, n);
    assert s.completions[e] == 0 && s.cancellations[e] == 0;
    assert EdgeOk(s, e);
    d := s.edges[e].dependency;
    assert s.edges[e].stage.Linked?;
    var k :| 0 <= k < |s.list[d]| && s.list[d][k] == e;
    assert ListOk(s, d);
    assert !Visited(s.life[d], k);
    assert Dependents(s, d)[k] == n;
    assert Graph(s)[d] == Dependents(s, d);
  }

  /**
    No stall: once nothing is running and nothing is pending (in particular no armed external
    node is still waiting for its signal), every node of an acyclic graph has ended.
   */
  lemma AllEnd(specs: seq<Spec>, events: seq<Event>)
    requires AtRest(Run(Init(specs), events)) && !DagCycle.Cyclic(Graph(Run(Init(specs), events)))
    ensures forall n | 0 <= n < |specs| :: Run(Init(specs), events).life[n].Ended?
  {
    RunInv(specs, events);
    var s := Run(Init(specs), events);
    var g := Graph(s);
    var done := set n: nat | n < |specs| && s.life[n].Ended?;
    forall n | 0 <= n < |specs| ensures s.life[n].Ended? {
      if !s.life[n].Ended? {
        forall v | 0 <= v < |g| && v !in done ensures DagCycle.Incoming(g, done, v, |g|) > 0 {
          var u := WaitsForUnfired(s, v);
          if DagCycle.Incoming(g, done, v, |g|) == 0 { DagCycle.IncomingZero(g, done, v, |g|, u); }
        }
        DagCycle.StuckIsCyclic(g, done, n);
      }
    }
  }

  /** A cancelled node's dependents have fired, or a call that fires them is pending; an AND dependent
      that was not starting when the edge was counted does not start. */
  lemma CancellationReaches(specs: seq<Spec>, events: seq<Event>, e: nat)
    requires var s := Run(Init(specs), events);
             && e < |s.edges| && Settled(s.edges[e].stage) && s.life[s.edges[e].dependency] == Ended(true)
    ensures var s := Run(Init(specs), events);
            var n := s.edges[e].dependent;
            && Coming(s, n)
            && (!specs[n].isOr && !s.late[e] ==> !Starting(s, n))
  {
    RunInv(specs, events);
    NotifiedOnce(specs, events, e);
    var s := Run(Init(specs), events);
    assert !s.late[e] ==> Early(s, e, s.edges[e].dependent) && !Met(s, s.edges[e].dependent);
  }

  // The edge, counted before its AND dependent was starting, comes from a cancelled node.
  predicate PassesOn(s: State, e: nat)
    requires Shape(s) && e < |s.edges|
  {
    && !s.late[e] && Settled(s.edges[e].stage) && !s.specs[s.edges[e].dependent].isOr
    && s.life[s.edges[e].dependency] == Ended(true)
  }

  lemma CancelledNext(specs: seq<Spec>, events: seq<Event>, e: nat)
    requires var s := Run(Init(specs), events); AtRest(s) && e < |s.edges| && PassesOn(s, e)
    ensures var s := Run(Init(specs), events); s.life[s.edges[e].dependent] == Ended(true)
  {
    CancellationReaches(specs, events, e);
    var s := Run(Init(specs), events);
    assert s.life[s.edges[e].dependent].Ended?;
  }

  // A chain of AND nodes, each depending on the one before it by an edge counted before it was starting.
  predicate Downstream(s: State, path: seq<nat>)
    requires Shape(s)
  {
    && (forall i | 0 <= i < |path| :: path[i] < |s.edges| && !s.late[path[i]] && Settled(s.edges[path[i]].stage)
                                      && !s.specs[s.edges[path[i]].dependent].isOr)
    && (forall i | 0 <= i < |path| - 1 :: s.edges[path[i]].dependent == s.edges[path[i + 1]].dependency)
  }

  lemma {:induction false} AlongPath(s: State, path: seq<nat>)
    requires Shape(s) && path != [] && Downstream(s, path) && s.life[s.edges[path[0]].dependency] == Ended(true)
    requires forall e | 0 <= e < |s.edges| && PassesOn(s, e) :: s.life[s.edges[e].dependent] == Ended(true)
    ensures s.life[s.edges[path[|path| - 1]].dependent] == Ended(true)
  {
    assert PassesOn(s, path[0]);
    if |path| > 1 { AlongPath(s, path[1..]); }
  }

  /** At rest, everything downstream of a cancelled node has ended as cancelled. */
  lemma CancelledDownstream(specs: seq<Spec>, events: seq<Event>, path: seq<nat>)
    requires var s := Run(Init(specs), events);
             && AtRest(s) && path != [] && Downstream(s, path)
             && s.life[s.edges[path[0]].dependency] == Ended(true)
    ensures var s := Run(Init(specs), events);
            s.life[s.edges[path[|path| - 1]].dependent] == Ended(true)
  {
    var s := Run(Init(specs), events);
    forall e | 0 <= e < |s.edges| && PassesOn(s, e) ensures s.life[s.edges[e].dependent] == Ended(true) {
      CancelledNext(specs, events, e);
    }
    AlongPath(s, path);
  }

  /** At rest an OR node all of whose dependencies were cancelled, one of them counted before it was
      starting, has ended as cancelled. */
  lemma CancelledOr(specs: seq<Spec>, events: seq<Event>, e: nat)
    requires var s := Run(Init(specs), events);
             && AtRest(s) && e < |s.edges| && !s.late[e] && specs[s.edges[e].dependent].isOr
             && forall x | 0 <= x < |s.edges| && s.edges[x].dependent == s.edges[e].dependent ::
                  s.life[s.edges[x].dependency] == Ended(true)
    ensures var s := Run(Init(specs), events); s.life[s.edges[e].dependent] == Ended(true)
  {
    var s := Run(Init(specs), events);
    CancellationReaches(specs, events, e);
    if Clean(s.life[s.edges[e].dependent]) { OrStartsAfterOne(specs, events, e); }
  }

  // ---------- cancelling the graph ----------

  // Not started, and never to be once the graph is cancelled.
  predicate Stopped(l: Life) {
    l.Unfired? || l.Fired? || (Finishing(l) && l.cancelled)
  }

  lemma NodeStopped(s: State, m: nat, refused: bool, n: nat)
    requires Shape(s) && s.cancelled && n < |s.specs| && m < |s.specs| && Stopped(s.life[n])
    ensures Stopped(StepNode(s, m, refused).life[n]) && StepNode(s, m, refused).cancelled
  {
  }

  lemma AddStopped(s: State, i: nat)
    requires Shape(s) && s.cancelled && i < |s.edges|
    ensures StepAdd(s, i).life == s.life && StepAdd(s, i).cancelled
  {
  }

  lemma FireStopped(s: State, m: nat, c: bool, n: nat)
    requires Shape(s) && s.cancelled && n < |s.specs| && (m, c) in s.fires && Stopped(s.life[n])
    ensures Stopped(FireNode(s, m, c).life[n]) && FireNode(s, m, c).cancelled
  {
  }

  lemma EndStopped(s: State, m: nat, discarded: bool, n: nat)
    requires Shape(s) && s.cancelled && n < |s.specs| && m < |s.specs| && s.life[m].Running? && Stopped(s.life[n])
    ensures Stopped(EndTask(s, m, discarded).life[n]) && EndTask(s, m, discarded).cancelled
  {
  }

  lemma SignalStopped(s: State, m: nat, n: nat)
    requires Shape(s) && s.cancelled && n < |s.specs| && m < |s.specs| && Stopped(s.life[n])
    ensures Stopped(SignalNode(s, m).life[n]) && SignalNode(s, m).cancelled
  {
  }

  lemma StepStopped(s: State, e: Event, n: nat)
    requires Shape(s) && s.cancelled && n < |s.specs| && Stopped(s.life[n])
    ensures Stopped(Step(s, e).life[n]) && Step(s, e).cancelled
  {
    hide StepAdd, StepNode, FireNode, EndTask, SignalNode;
    match e
    case NodeStep(m, refused) => if m < |s.specs| { NodeStopped(s, m, refused, n); }
    case AddStep(i) => if i < |s.edges| { AddStopped(s, i); }
    case Fire(m, c) => if (m, c) in s.fires { FireStopped(s, m, c, n); }
    case TaskEnds(m, d) => if m < |s.specs| && s.life[m].Running? { EndStopped(s, m, d, n); }
    case Signal(m) => if m < |s.specs| { SignalStopped(s, m, n); }
    case _ =>
  }

  /** Once the graph is cancelled, a node that has not started never does. */
  lemma {:induction false} CancelStopsStarts(s: State, events: seq<Event>, n: nat)
    requires Shape(s) && s.cancelled && n < |s.specs| && Stopped(s.life[n])
    ensures Stopped(Run(s, events).life[n]) && Run(s, events).cancelled
  {
    if events != [] {
      CancelStopsStarts(s, events[..|events| - 1], n);
      StepStopped(Run(s, events[..|events| - 1]), events[|events| - 1], n);
    }
  }

  lemma {:induction false} RunConcat(s: State, a: seq<Event>, b: seq<Event>)
    requires Shape(s)
    ensures Run(s, a + b) == Run(Run(s, a), b)
  {
    if b == [] {
      assert a + b == a;
    } else {
      assert (a + b)[..|a + b| - 1] == a + b[..|b| - 1];
      RunConcat(s, a, b[..|b| - 1]);
    }
  }

  /** A node not started when the graph was cancelled has, at rest in an acyclic graph, ended as cancelled. */
  lemma CancelEndsUnstarted(specs: seq<Spec>, before: seq<Event>, after: seq<Event>, n: nat)
    requires var s := Run(Init(specs), before); s.cancelled && n < |specs| && Stopped(s.life[n])
    requires var f := Run(Run(Init(specs), before), after); AtRest(f) && !DagCycle.Cyclic(Graph(f))
    ensures Run(Run(Init(specs), before), after).life[n] == Ended(true)
  {
    RunConcat(Init(specs), before, after);
    CancelStopsStarts(Run(Init(specs), before), after, n);
    AllEnd(specs, before + after);
  }

  // ---------- what HasCycle is given ----------

  function EdgesInto(s: State, v: nat, below: nat): set<nat>
    requires Shape(s)
  {
    set e | 0 <= e < |s.edges| && s.edges[e].dependent == v && s.edges[e].dependency < below
  }

  function ListedInto(s: State, v: nat, d: nat, from: nat): set<nat>
    requires Shape(s) && d < |s.specs| && from <= |s.list[d]|
  {
    set k | from <= k < |s.list[d]| && s.edges[s.list[d][k]].dependent == v :: s.list[d][k]
  }

  lemma {:induction false} CountIsSize(s: State, v: nat, d: nat, from: nat)
    requires Shape(s) && d < |s.specs| && from <= |s.list[d]| && ListOk(s, d)
    ensures DagCycle.Count(Dependents(s, d)[from..], v) == |ListedInto(s, v, d, from)|
    decreases |s.list[d]| - from
  {
    var xs := Dependents(s, d)[from..];
    if from < |s.list[d]| {
      CountIsSize(s, v, d, from + 1);
      assert xs[1..] == Dependents(s, d)[from + 1..];
      var e := s.list[d][from];
      assert e !in ListedInto(s, v, d, from + 1);
      if s.edges[e].dependent == v {
        assert ListedInto(s, v, d, from) == ListedInto(s, v, d, from + 1) + {e};
      } else {
        assert ListedInto(s, v, d, from) == ListedInto(s, v, d, from + 1);
      }
    }
  }

  lemma {:induction false} IncomingIsSize(s: State, v: nat, k: nat)
    requires Shape(s) && EdgesOk(s) && k <= |s.specs|
    requires forall e | 0 <= e < |s.edges| :: s.edges[e].stage.Linked?
    ensures DagCycle.Incoming(Graph(s), {}, v, k) == |EdgesInto(s, v, k)|
  {
    if k == 0 {
      assert EdgesInto(s, v, 0) == {};
    } else {
      IncomingIsSize(s, v, k - 1);
      CountIsSize(s, v, k - 1, 0);
      assert Dependents(s, k - 1)[0..] == Graph(s)[k - 1];
      IntoSplits(s, v, k - 1);
    }
  }

  lemma IntoSplits(s: State, v: nat, d: nat)
    requires Shape(s) && EdgesOk(s) && d < |s.specs|
    requires forall e | 0 <= e < |s.edges| :: s.edges[e].stage.Linked?
    ensures |EdgesInto(s, v, d + 1)| == |EdgesInto(s, v, d)| + |ListedInto(s, v, d, 0)|
  {
    var below, listed := EdgesInto(s, v, d), ListedInto(s, v, d, 0);
    assert ListOk(s, d);
    forall e | e in EdgesInto(s, v, d + 1) && e !in below ensures e in listed { assert EdgeOk(s, e); }
    assert EdgesInto(s, v, d + 1) == below + listed;
    assert below !! listed;
  }

  /**
    Before Submit, with every AddDependency returned, each node's count is the number of its
    incoming edges, with multiplicity: exactly what HasCycle demands.
   */
  lemma CountsAreIncoming(specs: seq<Spec>, events: seq<Event>)
    requires var s := Run(Init(specs), events);
             !s.submitted && forall e | 0 <= e < |s.edges| :: Settled(s.edges[e].stage)
    ensures var s := Run(Init(specs), events);
            var g := Graph(s);
            && DagCycle.WellFormed(g) && |g| == |s.left|
            && forall v | 0 <= v < |g| :: s.left[v] == DagCycle.Incoming(g, {}, v, |g|)
  {
    RunInv(specs, events);
    var s := Run(Init(specs), events);
    var g := Graph(s);
    forall e | 0 <= e < |s.edges| ensures s.edges[e].stage.Linked? && s.completions[e] == 0 {
      assert EdgeOk(s, e);
      NotifiedOnce(specs, events, e);
    }
    forall v | 0 <= v < |g| ensures s.left[v] == DagCycle.Incoming(g, {}, v, |g|) {
      IncomingIsSize(s, v, |g|);
      assert Owed(s, v) == EdgesInto(s, v, |g|);
    }
    assert forall d, k | 0 <= d < |g| && 0 <= k < |g[d]| :: g[d][k] == s.edges[s.list[d][k]].dependent;
  }

  // ---------- Submit ----------

  // Built, with every AddDependency returned, and not submitted.
  predicate Built(s: State) {
    !s.submitted && forall e | 0 <= e < |s.edges| :: Settled(s.edges[e].stage)
  }

  /** Submit's check on what was built: it refuses exactly the cyclic graphs. */
  method SubmitAccepts(specs: seq<Spec>, events: seq<Event>) returns (accepted: bool)
    requires Built(Run(Init(specs), events))
    ensures accepted <==> !DagCycle.Cyclic(Graph(Run(Init(specs), events)))
  {
    var s := Run(Init(specs), events);
    CountsAreIncoming(specs, events);
    var left: seq<nat> := seq(|s.left|, i requires 0 <= i < |s.left| => s.left[i]);
    var cyclic := DagCycle.HasCycle(Graph(s), left);
    accepted := !cyclic;
  }

  predicate AddsNoEdge(events: seq<Event>) {
    forall i | 0 <= i < |events| :: !events[i].NewEdge?
  }

  predicate AllSettled(s: State) {
    forall e | 0 <= e < |s.edges| :: Settled(s.edges[e].stage)
  }

  lemma NodeKeepsGraph(s: State, n: nat, refused: bool)
    requires Shape(s) && n < |s.specs|
    ensures StepNode(s, n, refused).edges == s.edges && StepNode(s, n, refused).list == s.list
  {
  }

  lemma StepKeepsGraph(s: State, e: Event)
    requires Shape(s) && AllSettled(s) && !e.NewEdge?
    ensures Step(s, e).edges == s.edges && Step(s, e).list == s.list
  {
    match e
    case NodeStep(n, refused) => if n < |s.specs| { NodeKeepsGraph(s, n, refused); }
    case AddStep(i) => if i < |s.edges| { assert Settled(s.edges[i].stage) && StepAdd(s, i) == s; }
    case _ =>
  }

  lemma {:induction false} RunKeepsGraph(s: State, events: seq<Event>)
    requires Shape(s) && AllSettled(s) && AddsNoEdge(events)
    ensures Run(s, events).edges == s.edges && Run(s, events).list == s.list
  {
    if events != [] {
      RunKeepsGraph(s, events[..|events| - 1]);
      assert !events[|events| - 1].NewEdge?;
      StepKeepsGraph(Run(s, events[..|events| - 1]), events[|events| - 1]);
    }
  }

  /**
    A graph that Submit accepts and that gets no further edge runs to its end: when nothing is
    running or pending any more, every node has ended.
   */
  lemma AcceptedGraphEnds(specs: seq<Spec>, before: seq<Event>, after: seq<Event>)
    requires Built(Run(Init(specs), before)) && !DagCycle.Cyclic(Graph(Run(Init(specs), before)))
    requires AddsNoEdge(after) && AtRest(Run(Run(Init(specs), before), after))
    ensures forall n | 0 <= n < |specs| :: Run(Run(Init(specs), before), after).life[n].Ended?
  {
    var s := Run(Init(specs), before);
    RunKeepsGraph(s, after);
    RunConcat(Init(specs), before, after);
    assert Graph(Run(s, after)) == Graph(s) by { SameGraph(s, Run(s, after)); }
    AllEnd(specs, before + after);
  }

  lemma SameGraph(s: State, s': State)
    requires Shape(s) && Shape(s') && s'.specs == s.specs && s'.edges == s.edges && s'.list == s.list
    ensures Graph(s') == Graph(s)
  {
    forall d | 0 <= d < |s.specs| ensures Graph(s')[d] == Graph(s)[d] { assert Dependents(s', d) == Dependents(s, d); }
  }

  // ---------- what the calls of a run say ----------

  function Asked(n: nat, e: Event): seq<(nat, nat)> {
    if e.NewEdge? && e.dependent < n && e.dependency < n then [(e.dependent, e.dependency)] else []
  }

  // The AddDependency calls of a run, dependent first.
  function Calls(n: nat, events: seq<Event>): seq<(nat, nat)> {
    if events == [] then [] else Calls(n, events[..|events| - 1]) + Asked(n, events[|events| - 1])
  }

  predicate EdgesAre(edges: seq<Edge>, calls: seq<(nat, nat)>) {
    |edges| == |calls| && forall k | 0 <= k < |edges| :: (edges[k].dependent, edges[k].dependency) == calls[k]
  }

  lemma StepCalls(s: State, e: Event, calls: seq<(nat, nat)>)
    requires Shape(s) && EdgesAre(s.edges, calls)
    ensures EdgesAre(Step(s, e).edges, calls + Asked(|s.specs|, e))
  {
    hide StepAdd, StepNode;
    match e
    case AddStep(i) => if i < |s.edges| { AddEnds(s, i); }
    case NodeStep(n, refused) => if n < |s.specs| { NodeFrame(s, n, refused); }
    case _ =>
  }

  predicate SameEnds(edges: seq<Edge>, edges': seq<Edge>) {
    && |edges'| == |edges|
    && forall k | 0 <= k < |edges| ::
         edges'[k].dependent == edges[k].dependent && edges'[k].dependency == edges[k].dependency
  }

  lemma AddStage(s: State, i: nat)
    requires Shape(s) && i < |s.edges|
    ensures StepAdd(s, i).edges == s.edges[i := s.edges[i].(stage := StepAdd(s, i).edges[i].stage)]
  {
    assert s.edges == s.edges[i := s.edges[i].(stage := s.edges[i].stage)];
  }

  lemma AddFlags(s: State, i: nat)
    requires Shape(s) && i < |s.edges|
    ensures var s' := StepAdd(s, i);
            && s'.cancelled == s.cancelled && s'.submitted == s.submitted && s'.signalled == s.signalled && s'.life == s.life
  {
    hide Notify;
    if s.edges[i].stage.Late? { TellFrame(SetStage(s, i, Told), i, s.edges[i].stage.cancelled); }
  }

  lemma AddTallies(s: State, i: nat)
    requires Shape(s) && i < |s.edges|
    ensures var s' := StepAdd(s, i);
            && s'.cancellations == s.cancellations[i := s'.cancellations[i]] && s'.cancellations[i] >= s.cancellations[i]
  {
    assert s.cancellations == s.cancellations[i := s.cancellations[i]];
    if s.edges[i].stage.Late? { TellFrame(SetStage(s, i, Told), i, s.edges[i].stage.cancelled); }
  }

  // A step of an adder changes its edge's stage, and nothing that the caller of the graph set.
  lemma AddFrame(s: State, i: nat)
    requires Shape(s) && i < |s.edges|
    ensures var s' := StepAdd(s, i);
            && s'.edges == s.edges[i := s.edges[i].(stage := s'.edges[i].stage)]
            && s'.cancelled == s.cancelled && s'.submitted == s.submitted && s'.signalled == s.signalled && s'.life == s.life
            && s'.cancellations == s.cancellations[i := s'.cancellations[i]] && s'.cancellations[i] >= s.cancellations[i]
  {
    hide StepAdd;
    AddStage(s, i);
    AddFlags(s, i);
    AddTallies(s, i);
  }

  lemma AddEnds(s: State, i: nat)
    requires Shape(s) && i < |s.edges|
    ensures SameEnds(s.edges, StepAdd(s, i).edges)
  {
    hide StepAdd;
    AddFrame(s, i);
  }

  lemma NodeFrame(s: State, n: nat, refused: bool)
    requires Shape(s) && n < |s.specs|
    ensures var s' := StepNode(s, n, refused);
            && s'.edges == s.edges && s'.cancelled == s.cancelled && s'.submitted == s.submitted && s'.signalled == s.signalled
            && (forall e | 0 <= e < |s.edges| :: s'.cancellations[e] >= s.cancellations[e])
  {
    hide NextLife;
  }

  lemma TellFrame(s: State, e: nat, c: bool)
    requires Shape(s) && e < |s.edges|
    ensures var s' := Notify(s, e, c);
            && s'.cancelled == s.cancelled && s'.submitted == s.submitted && s'.signalled == s.signalled
            && s'.completions == s.completions[e := s'.completions[e]]
            && s'.cancellations == s.cancellations[e := s'.cancellations[e]]
            && s'.completions[e] >= s.completions[e] && s'.cancellations[e] >= s.cancellations[e]
  {
    assert s.completions == s.completions[e := s.completions[e]];
    assert s.cancellations == s.cancellations[e := s.cancellations[e]];
  }

  lemma {:induction false} EdgesAreTheCalls(specs: seq<Spec>, events: seq<Event>)
    ensures EdgesAre(Run(Init(specs), events).edges, Calls(|specs|, events))
  {
    hide Step;
    if events != [] {
      var before, e := events[..|events| - 1], events[|events| - 1];
      EdgesAreTheCalls(specs, before);
      StepCalls(Run(Init(specs), before), e, Calls(|specs|, before));
    }
  }

  // What the caller has said so far.
  predicate FlagsAre(s: State, seen: seq<Event>)
    requires Shape(s)
  {
    && (s.cancelled <==> Cancel in seen) && (s.submitted <==> Submit in seen)
    && (forall n | 0 <= n < |s.specs| :: s.signalled[n] <==> Signal(n) in seen)
  }

  lemma FlagsOn(s: State, seen: seq<Event>, e: Event)
    requires Shape(s) && FlagsAre(s, seen)
    ensures FlagsAre(Step(s, e), seen + [e])
  {
    StepFlags(s, e);
    hide Step;
  }

  lemma {:induction false} FlagsAreTheCalls(specs: seq<Spec>, events: seq<Event>)
    ensures FlagsAre(Run(Init(specs), events), events)
  {
    if events == [] { assert FlagsAre(Init(specs), []); }
    else {
      hide Step, FlagsAre;
      var before, e := events[..|events| - 1], events[|events| - 1];
      FlagsAreTheCalls(specs, before);
      FlagsOn(Run(Init(specs), before), before, e);
      assert before + [e] == events;
    }
  }

  /** The edges are those of the AddDependency calls, each from its dependency to its dependent; the graph is
      cancelled, submitted and signalled exactly when the caller said so. */
  lemma BooksAreTheCalls(specs: seq<Spec>, events: seq<Event>)
    ensures var s := Run(Init(specs), events);
            && EdgesAre(s.edges, Calls(|specs|, events))
            && (s.cancelled <==> Cancel in events) && (s.submitted <==> Submit in events)
            && (forall n | 0 <= n < |specs| :: s.signalled[n] <==> Signal(n) in events)
  {
    hide Step, EdgesAre;
    EdgesAreTheCalls(specs, events);
    FlagsAreTheCalls(specs, events);
  }

  lemma StepFlags(s: State, e: Event)
    requires Shape(s)
    ensures var s' := Step(s, e);
            && (s'.cancelled <==> s.cancelled || e.Cancel?) && (s'.submitted <==> s.submitted || e.Submit?)
            && (forall n | 0 <= n < |s.specs| :: s'.signalled[n] <==> s.signalled[n] || e == Signal(n))
  {
    hide StepAdd, StepNode;
    match e
    case AddStep(i) => if i < |s.edges| { AddFrame(s, i); }
    case NodeStep(n, refused) => if n < |s.specs| { NodeFrame(s, n, refused); }
    case _ =>
  }

  predicate Joins(s: State, e: nat, d: nat, n: nat) {
    e < |s.edges| && s.edges[e].dependency == d && s.edges[e].dependent == n
  }

  lemma EdgeListed(s: State, e: nat, d: nat, n: nat)
    requires Shape(s) && d < |s.specs| && Joins(s, e, d, n) && e in s.list[d]
    ensures DagCycle.Edge(Graph(s), d, n)
  {
    var k :| 0 <= k < |s.list[d]| && s.list[d][k] == e;
    assert Graph(s)[d][k] == n;
  }

  lemma EdgeFound(s: State, d: nat, n: nat) returns (e: nat)
    requires Shape(s) && d < |s.specs| && ListOk(s, d) && DagCycle.Edge(Graph(s), d, n)
    ensures Joins(s, e, d, n)
  {
    var k :| 0 <= k < |s.list[d]| && s.edges[s.list[d][k]].dependent == n;
    e := s.list[d][k];
  }

  lemma BuiltIsLinked(s: State, e: nat)
    requires Inv(s) && Built(s) && e < |s.edges|
    ensures e in s.list[s.edges[e].dependency]
  {
    assert EdgeOk(s, e);
  }

  /** Once every AddDependency has returned, before Submit, the graph that HasCycle walks has an edge from a
      dependency to a dependent exactly where the caller asked for one. */
  lemma GraphIsTheCalls(specs: seq<Spec>, events: seq<Event>, d: nat, n: nat)
    requires Built(Run(Init(specs), events)) && d < |specs| && n < |specs|
    ensures DagCycle.Edge(Graph(Run(Init(specs), events)), d, n) <==> NewEdge(n, d) in events
  {
    BooksAreTheCalls(specs, events);
    CallsAre(|specs|, events, n, d);
    var s, calls := Run(Init(specs), events), Calls(|specs|, events);
    assert Inv(s) && ListOk(s, d) by { RunInv(specs, events); }
    hide Step, Inv, ListOk;
    if DagCycle.Edge(Graph(s), d, n) {
      var e := EdgeFound(s, d, n);
      assert calls[e] == (n, d);
    }
    if (n, d) in calls {
      var e :| 0 <= e < |calls| && calls[e] == (n, d);
      BuiltIsLinked(s, e);
      EdgeListed(s, e, d, n);
    }
  }

  lemma {:induction false} CallsAre(size: nat, events: seq<Event>, n: nat, d: nat)
    requires n < size && d < size
    ensures (n, d) in Calls(size, events) <==> NewEdge(n, d) in events
  {
    if events != [] {
      var before, e := events[..|events| - 1], events[|events| - 1];
      CallsAre(size, before, n, d);
      assert events == before + [e];
    }
  }

  // ---------- outcomes ----------

  // What a node needs to finish as completed, by its kind.
  predicate Earned(specs: seq<Spec>, seen: seq<Event>, n: nat)
    requires n < |specs|
  {
    match specs[n].kind
    case Work => TaskEnds(n, false) in seen
    case External => Signal(n) in seen
    case Pass => true
  }

  predicate ToldCancelled(s: State, n: nat)
    requires Shape(s)
  {
    exists e :: 0 <= e < |s.edges| && s.edges[e].dependent == n && s.cancellations[e] > 0
  }

  // What may have cancelled a node.
  predicate Blamed(s: State, seen: seq<Event>, n: nat)
    requires Shape(s)
  {
    Cancel in seen || NodeStep(n, true) in seen || TaskEnds(n, true) in seen || ToldCancelled(s, n)
  }

  predicate CancelledLife(l: Life) {
    (l.Fired? || Finishing(l)) && l.cancelled
  }

  predicate OutcomeOk(s: State, seen: seq<Event>, n: nat)
    requires Shape(s) && n < |s.specs|
  {
    && (s.life[n].Running? ==> s.specs[n].kind.Work?) && (s.life[n].Armed? ==> s.specs[n].kind.External?)
    && (Finishing(s.life[n]) && !s.life[n].cancelled ==> Earned(s.specs, seen, n))
    && (CancelledLife(s.life[n]) || (n, true) in s.fires ==> Blamed(s, seen, n))
  }

  // Histories only grow.
  predicate Grows(s: State, s': State)
    requires Shape(s) && Shape(s')
  {
    && s'.specs == s.specs && |s.edges| <= |s'.edges|
    && forall e | 0 <= e < |s.edges| ::
         s'.edges[e].dependent == s.edges[e].dependent && s'.cancellations[e] >= s.cancellations[e]
  }

  lemma StepGrows(s: State, e: Event)
    requires Shape(s)
    ensures Grows(s, Step(s, e))
  {
    hide StepAdd, StepNode;
    match e
    case AddStep(i) => if i < |s.edges| { AddFrame(s, i); }
    case NodeStep(n, refused) => if n < |s.specs| { NodeFrame(s, n, refused); }
    case _ =>
  }

  lemma BlamedStill(s: State, s': State, seen: seq<Event>, e: Event, n: nat)
    requires Shape(s) && Shape(s') && Grows(s, s') && Blamed(s, seen, n)
    ensures Blamed(s', seen + [e], n)
  {
    if x :| 0 <= x < |s.edges| && s.edges[x].dependent == n && s.cancellations[x] > 0 {
      assert s'.edges[x].dependent == n && s'.cancellations[x] > 0;
    }
  }

  // A notification of a cancellation blames the edge; no other fire of a node as cancelled is new.
  lemma NotifyBlames(s: State, e: nat, c: bool, n: nat)
    requires Shape(s) && e < |s.edges| && n < |s.specs| && (n, true) in Notify(s, e, c).fires && (n, true) !in s.fires
    ensures ToldCancelled(Notify(s, e, c), n)
  {
    assert c && s.edges[e].dependent == n && Notify(s, e, c).cancellations[e] > 0;
  }

  // The life of node n becomes l: it needs its grounds, and a fire of it as cancelled needs its blame.
  lemma OutcomeMoved(s: State, s': State, seen: seq<Event>, e: Event, n: nat)
    requires Shape(s) && Shape(s') && n < |s.specs| && OutcomeOk(s, seen, n) && Grows(s, s')
    requires var l := s'.life[n];
             l == s.life[n] || (&& (l.Running? ==> s.specs[n].kind.Work?) && (l.Armed? ==> s.specs[n].kind.External?)
                                && (Finishing(l) && !l.cancelled ==> Earned(s.specs, seen + [e], n))
                                && (CancelledLife(l) ==> Blamed(s, seen, n) || Blamed(s', seen + [e], n)))
    requires (n, true) in s'.fires ==> (n, true) in s.fires || ToldCancelled(s', n)
    ensures OutcomeOk(s', seen + [e], n)
  {
    if Blamed(s, seen, n) { BlamedStill(s, s', seen, e, n); }
  }

  lemma VisitOutcome(s: State, seen: seq<Event>, m: nat, refused: bool, n: nat)
    requires Shape(s) && m < |s.specs| && n < |s.specs| && OutcomeOk(s, seen, n) && Visiting(s, m)
    ensures OutcomeOk(StepNode(s, m, refused), seen + [NodeStep(m, refused)], n)
  {
    hide NextLife, OutcomeOk;
    var Walking(c, visited, target, at) := s.life[m];
    var l := Walking(c, visited, target, at - 1);
    var moved, e := SetLife(s, m, l), s.list[m][at - 1];
    VisitIsNotify(s, m, refused, l);
    OutcomeAtVisit(s, seen, m, refused, n, l, e, c);
  }

  lemma OutcomeAtVisit(s: State, seen: seq<Event>, m: nat, refused: bool, n: nat, l: Life, e: nat, c: bool)
    requires Shape(s) && m < |s.specs| && n < |s.specs| && OutcomeOk(s, seen, n) && e < |s.edges|
    requires s.life[m].Walking? && l.Walking? && l.cancelled == s.life[m].cancelled
    ensures OutcomeOk(Notify(SetLife(s, m, l), e, c), seen + [NodeStep(m, refused)], n)
  {
    hide NextLife;
    var moved := SetLife(s, m, l);
    var s' := Notify(moved, e, c);
    TellFrame(moved, e, c);
    if (n, true) in s'.fires && (n, true) !in s.fires { NotifyBlames(moved, e, c, n); }
    if Blamed(s, seen, n) { BlamedStill(s, s', seen, NodeStep(m, refused), n); }
  }

  lemma NextOutcome(s: State, seen: seq<Event>, m: nat, refused: bool, n: nat)
    requires Shape(s) && m < |s.specs| && n < |s.specs| && OutcomeOk(s, seen, n) && !Visiting(s, m)
    requires s.cancelled ==> Cancel in seen
    requires s.signalled[n] ==> Signal(n) in seen
    ensures OutcomeOk(StepNode(s, m, refused), seen + [NodeStep(m, refused)], n)
  {
    OutcomeMoved(s, StepNode(s, m, refused), seen, NodeStep(m, refused), n);
  }

  lemma AddOutcome(s: State, seen: seq<Event>, i: nat, n: nat)
    requires Shape(s) && i < |s.edges| && n < |s.specs| && OutcomeOk(s, seen, n)
    ensures OutcomeOk(StepAdd(s, i), seen + [AddStep(i)], n)
  {
    var s' := StepAdd(s, i);
    if (n, true) in s'.fires { AddBlames(s, i, n); }
    hide StepAdd, OutcomeOk;
    AddFrame(s, i);
    OutcomeMoved(s, s', seen, AddStep(i), n);
  }

  lemma AddBlames(s: State, i: nat, n: nat)
    requires Shape(s) && i < |s.edges| && n < |s.specs| && (n, true) in StepAdd(s, i).fires
    ensures (n, true) in s.fires || ToldCancelled(StepAdd(s, i), n)
  {
    if s.edges[i].stage.Late? && (n, true) !in s.fires {
      NotifyBlames(SetStage(s, i, Told), i, s.edges[i].stage.cancelled, n);
    }
  }

  lemma FireOutcome(s: State, seen: seq<Event>, m: nat, c: bool, n: nat)
    requires Shape(s) && (m, c) in s.fires && n < |s.specs| && OutcomeOk(s, seen, n)
    ensures OutcomeOk(FireNode(s, m, c), seen + [Fire(m, c)], n)
  {
    OutcomeMoved(s, FireNode(s, m, c), seen, Fire(m, c), n);
  }

  lemma EndOutcome(s: State, seen: seq<Event>, m: nat, discarded: bool, n: nat)
    requires Shape(s) && m < |s.specs| && s.life[m].Running? && n < |s.specs| && OutcomeOk(s, seen, n)
    ensures OutcomeOk(EndTask(s, m, discarded), seen + [TaskEnds(m, discarded)], n)
  {
    OutcomeMoved(s, EndTask(s, m, discarded), seen, TaskEnds(m, discarded), n);
  }

  lemma SignalOutcome(s: State, seen: seq<Event>, m: nat, n: nat)
    requires Shape(s) && m < |s.specs| && n < |s.specs| && OutcomeOk(s, seen, n)
    ensures OutcomeOk(SignalNode(s, m), seen + [Signal(m)], n)
  {
    OutcomeMoved(s, SignalNode(s, m), seen, Signal(m), n);
  }

  lemma OtherOutcome(s: State, seen: seq<Event>, e: Event, n: nat)
    requires Shape(s) && n < |s.specs| && OutcomeOk(s, seen, n)
    requires Step(s, e) == s || e.NewEdge? || e.Submit? || e.SubmitStep? || e.Cancel?
    ensures OutcomeOk(Step(s, e), seen + [e], n)
  {
    hide StepAdd, StepNode;
    OutcomeMoved(s, Step(s, e), seen, e, n);
  }

  lemma StepOutcome(s: State, seen: seq<Event>, e: Event, n: nat)
    requires Shape(s) && n < |s.specs| && OutcomeOk(s, seen, n)
    requires (s.cancelled ==> Cancel in seen) && (s.signalled[n] ==> Signal(n) in seen)
    ensures OutcomeOk(Step(s, e), seen + [e], n)
  {
    hide StepAdd, StepNode, FireNode, EndTask, SignalNode, OutcomeOk;
    match e
    case NodeStep(m, refused) =>
      if m >= |s.specs| { OtherOutcome(s, seen, e, n); }
      else if Visiting(s, m) { VisitOutcome(s, seen, m, refused, n); }
      else { NextOutcome(s, seen, m, refused, n); }
    case AddStep(i) => if i < |s.edges| { AddOutcome(s, seen, i, n); } else { OtherOutcome(s, seen, e, n); }
    case Fire(m, c) => if (m, c) in s.fires { FireOutcome(s, seen, m, c, n); } else { OtherOutcome(s, seen, e, n); }
    case TaskEnds(m, d) =>
      if m < |s.specs| && s.life[m].Running? { EndOutcome(s, seen, m, d, n); } else { OtherOutcome(s, seen, e, n); }
    case Signal(m) =>
      if m < |s.specs| && !s.signalled[m] { SignalOutcome(s, seen, m, n); } else { OtherOutcome(s, seen, e, n); }
    case _ => OtherOutcome(s, seen, e, n);
  }

  lemma {:induction false} RunOutcome(specs: seq<Spec>, events: seq<Event>, n: nat)
    requires n < |specs|
    ensures OutcomeOk(Run(Init(specs), events), events, n)
  {
    hide Step;
    if events != [] {
      var before, e := events[..|events| - 1], events[|events| - 1];
      RunOutcome(specs, before, n);
      BooksAreTheCalls(specs, before);
      StepOutcome(Run(Init(specs), before), before, e, n);
      assert before + [e] == events;
    }
  }

  /** A node finishes as completed only if its task ran to its end, or its signal came. */
  lemma CompletedIsEarned(specs: seq<Spec>, events: seq<Event>, n: nat)
    requires n < |specs|
    requires var l := Run(Init(specs), events).life[n]; Finishing(l) && !l.cancelled
    ensures match specs[n].kind
            case Work => TaskEnds(n, false) in events
            case External => Signal(n) in events
            case Pass => true
  {
    RunOutcome(specs, events, n);
  }

  /** A node finishes as cancelled only with a cause: the graph was cancelled, its task was refused or
      discarded, or one of its dependencies finished as cancelled. */
  lemma CancelledHasCause(specs: seq<Spec>, events: seq<Event>, n: nat)
    requires n < |specs|
    requires var l := Run(Init(specs), events).life[n]; Finishing(l) && l.cancelled
    ensures var s := Run(Init(specs), events);
            || Cancel in events || NodeStep(n, true) in events || TaskEnds(n, true) in events
            || exists e :: 0 <= e < |s.edges| && s.edges[e].dependent == n
                           && var d := s.life[s.edges[e].dependency]; Finishing(d) && d.cancelled
  {
    RunOutcome(specs, events, n);
    var s := Run(Init(specs), events);
    if e :| 0 <= e < |s.edges| && s.edges[e].dependent == n && s.cancellations[e] > 0 { NotifiedOnce(specs, events, e); }
  }

  // A call or a scheduler's answer that cancels something.
  predicate Disturbs(e: Event) {
    e.Cancel? || (e.NodeStep? && e.refused) || (e.TaskEnds? && e.discarded)
  }

  predicate NobodyTold(s: State)
    requires Shape(s)
  {
    forall e | 0 <= e < |s.edges| :: s.cancellations[e] == 0
  }

  lemma NodeTellsNobody(s: State, n: nat, refused: bool)
    requires Shape(s) && n < |s.specs| && NobodyTold(s) && !CancelledLife(s.life[n])
    ensures NobodyTold(StepNode(s, n, refused))
  {
    hide NextLife;
  }

  lemma AddTellsNobody(s: State, i: nat)
    requires Shape(s) && i < |s.edges| && NobodyTold(s) && EdgeOk(s, i) && !CancelledLife(s.life[s.edges[i].dependency])
    ensures NobodyTold(StepAdd(s, i))
  {
    if s.edges[i].stage.Late? {
      assert !s.edges[i].stage.cancelled;
    } else {
      assert StepAdd(s, i).cancellations == s.cancellations;
    }
  }

  lemma StepTellsNobody(s: State, e: Event)
    requires Inv(s) && NobodyTold(s) && forall n | 0 <= n < |s.specs| :: !CancelledLife(s.life[n])
    ensures NobodyTold(Step(s, e))
  {
    hide StepAdd, StepNode;
    match e
    case NodeStep(n, refused) => if n < |s.specs| { NodeTellsNobody(s, n, refused); }
    case AddStep(i) =>
      if i < |s.edges| {
        assert EdgeOk(s, i);
        AddTellsNobody(s, i);
      }
    case _ =>
  }

  lemma {:induction false} Undisturbed(specs: seq<Spec>, events: seq<Event>)
    requires forall i | 0 <= i < |events| :: !Disturbs(events[i])
    ensures NobodyTold(Run(Init(specs), events))
    ensures forall n | 0 <= n < |specs| :: !CancelledLife(Run(Init(specs), events).life[n])
  {
    hide Step;
    if events != [] {
      var before, e := events[..|events| - 1], events[|events| - 1];
      Undisturbed(specs, before);
      RunInv(specs, before);
      StepTellsNobody(Run(Init(specs), before), e);
    }
    forall n | 0 <= n < |specs| ensures !CancelledLife(Run(Init(specs), events).life[n]) {
      RunOutcome(specs, events, n);
      assert forall x | x in events :: !Disturbs(x);
      assert Disturbs(Cancel) && Disturbs(NodeStep(n, true)) && Disturbs(TaskEnds(n, true));
    }
  }

  /** A run in which nothing is cancelled, refused or discarded: no node is ever cancelled, and at rest every
      node of an acyclic graph has ended as completed. */
  lemma UndisturbedCompletes(specs: seq<Spec>, events: seq<Event>)
    requires forall i | 0 <= i < |events| :: !Disturbs(events[i])
    ensures var s := Run(Init(specs), events);
            && (forall n | 0 <= n < |specs| && Finishing(s.life[n]) :: !s.life[n].cancelled)
            && (AtRest(s) && !DagCycle.Cyclic(Graph(s)) ==> forall n | 0 <= n < |specs| :: s.life[n] == Ended(false))
  {
    hide Step, Run, AtRest, Graph, NobodyTold, CancelledLife, Disturbs;
    Undisturbed(specs, events);
    var s := Run(Init(specs), events);
    NoneIsCancelled(s.life);
    if AtRest(s) && !DagCycle.Cyclic(Graph(s)) { AllEnd(specs, events); }
  }

  lemma NoneIsCancelled(life: seq<Life>)
    requires forall n | 0 <= n < |life| :: !CancelledLife(life[n])
    ensures forall n | 0 <= n < |life| && Finishing(life[n]) :: !life[n].cancelled
    ensures forall n | 0 <= n < |life| && life[n].Ended? :: life[n] == Ended(false)
  {
    forall n | 0 <= n < |life| && Finishing(life[n]) ensures !life[n].cancelled { assert !CancelledLife(life[n]); }
  }

  /** How its task ends is how a node finishes, whatever happens afterwards: completed if it ran, cancelled
      if it was discarded. */
  lemma TaskEndDecides(s: State, n: nat, discarded: bool, after: seq<Event>)
    requires Shape(s) && n < |s.specs| && s.life[n].Running?
    ensures var l := Run(Step(s, TaskEnds(n, discarded)), after).life[n]; Finishing(l) && l.cancelled == discarded
  {
    EndsOnce(Step(s, TaskEnds(n, discarded)), after, n);
  }

  /** A task that the scheduler refuses cancels its node for good; one that it takes is queued. */
  lemma RefusalDecides(s: State, n: nat, after: seq<Event>)
    requires Shape(s) && n < |s.specs| && s.life[n].Dispatching? && s.specs[n].kind.Work?
    ensures var l := Run(Step(s, NodeStep(n, true)), after).life[n]; Finishing(l) && l.cancelled
    ensures Step(s, NodeStep(n, false)).life[n].Running?
  {
    EndsOnce(Step(s, NodeStep(n, true)), after, n);
  }

  /** A signal finishes an external node that waits for it. */
  lemma SignalDecides(s: State, n: nat, after: seq<Event>)
    requires Shape(s) && n < |s.specs| && s.life[n].Armed? && !s.signalled[n]
    ensures var l := Run(Step(s, Signal(n)), after).life[n]; Finishing(l) && !l.cancelled
  {
    EndsOnce(Step(s, Signal(n)), after, n);
  }

  /** A signal that comes before the node is ready for it is not lost. */
  lemma EarlySignalCounts(s: State, n: nat, refused: bool, after: seq<Event>)
    requires Shape(s) && n < |s.specs| && s.specs[n].kind.External? && s.life[n].Dispatching? && s.signalled[n]
    ensures var l := Run(Step(s, NodeStep(n, refused)), after).life[n]; Finishing(l) && !l.cancelled
  {
    EarlySignalWalks(s, n, refused);
    hide Step;
    EndsOnce(Step(s, NodeStep(n, refused)), after, n);
  }

  lemma EarlySignalWalks(s: State, n: nat, refused: bool)
    requires Shape(s) && n < |s.specs| && s.specs[n].kind.External? && s.life[n].Dispatching? && s.signalled[n]
    ensures var l := Step(s, NodeStep(n, refused)).life[n]; Finishing(l) && !l.cancelled
  {
  }

  predicate Busy(l: Life) {
    !l.Unfired? && !l.Ended?
  }

  // The event that takes a busy node on: its own step, the end of its task, or its signal.
  function Onto(s: State, n: nat): Event
    requires Shape(s) && n < |s.specs|
  {
    if s.life[n].Running? then TaskEnds(n, false) else if s.life[n].Armed? then Signal(n) else NodeStep(n, false)
  }

  lemma BusyMoves(s: State, n: nat)
    requires Inv(s) && n < |s.specs| && Busy(s.life[n])
    ensures Step(s, Onto(s, n)).life[n] != s.life[n]
  {
  }

  lemma AdderMoves(s: State, e: nat)
    requires Shape(s) && e < |s.edges| && !Settled(s.edges[e].stage)
    ensures StepAdd(s, e).edges[e].stage != s.edges[e].stage
  {
  }

  lemma FireMoves(s: State, n: nat, c: bool)
    requires Shape(s) && (n, c) in s.fires
    ensures Step(s, Fire(n, c)).fires[(n, c)] == s.fires[(n, c)] - 1
  {
  }

  lemma SomethingMoves(s: State) returns (e: Event)
    requires Inv(s) && s.submitted && !AtRest(s)
    ensures !Disturbs(e) && !e.NewEdge? && !e.Submit? && Step(s, e) != s
  {
    hide StepAdd, StepNode, EndTask, SignalNode, FireNode, EdgesOk, RestOk;
    if s.scan < |s.specs| { e := SubmitStep; }
    else if s.fires != multiset{} {
      var f :| f in s.fires;
      e := Fire(f.0, f.1);
      FireMoves(s, f.0, f.1);
    } else if n :| 0 <= n < |s.specs| && Busy(s.life[n]) {
      e := Onto(s, n);
      BusyMoves(s, n);
    } else {
      var x :| 0 <= x < |s.edges| && !Settled(s.edges[x].stage);
      e := AddStep(x);
      AdderMoves(s, x);
    }
  }

  /** Never stuck: in a submitted graph that is not at rest, something moves, with no call but the end of a
      task that is running or the signal that a node is waiting for. */
  lemma NeverStuck(specs: seq<Spec>, events: seq<Event>) returns (e: Event)
    requires var s := Run(Init(specs), events); s.submitted && !AtRest(s)
    ensures !Disturbs(e) && !e.NewEdge? && !e.Submit?
    ensures Step(Run(Init(specs), events), e) != Run(Init(specs), events)
  {
    RunInv(specs, events);
    e := SomethingMoves(Run(Init(specs), events));
  }
}
