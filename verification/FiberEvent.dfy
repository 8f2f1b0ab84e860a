/**
  The suspend/resume handshake of a fiber (include/Fiber.h:203-245, src/Thread.cpp:537-579)
  composed with Event's rule that whoever unlinks a task under the lock wakes it
  (include/Event.h:45-124).  Any number of tasks, events and wakers; a step is one atomic access
  or one critical section of an event's spinlock.  A task may wait any number of times.
 */
module FiberEvent {

  datatype Status = READY | RUNNING | WANTS_SUSPEND | SUSPEND_SIGNALED | SUSPENDED

  // Where the task's own control flow is.
  datatype Phase =
    | OnFiber                          // running user code
    | Marked                           // BeginSuspend done; AddWaiter next
    | Linked                           // AddWaiter done; still on its own stack
    | Out                              // switched out; the worker's park step is next
    | Storing                          // the park step saw SUSPEND_SIGNALED; it stores READY next
    | Placing                          // READY stored; the worker places the task next
    | Away                             // parked, being placed by a waker, or placed

  // Who is to wake the task.
  datatype Claim = None | InList(event: nat) | Held(waker: nat) | Placer(waker: nat)

  datatype Task = Task(
    token: nat,
    status: Status,
    phase: Phase,
    claim: Claim,
    queued: bool,                      // placed: in some run queue
    suspensions: nat,                  // history: waits linked on an event
    placements: nat)                   // history

  // What a waker is doing with a detached chain.
  datatype Pc =
    | Idle
    | Loading(t: nat)                  // Fiber::Resume on t: the status is loaded next
    | Seen(t: nat, status: Status)     // the compare-and-swap comes next
    | Requeue(t: nat)                  // the swap to READY succeeded; the task is placed next

  datatype Waker = Waker(chain: seq<nat>, pc: Pc)

  datatype State = State(tasks: seq<Task>, lists: seq<seq<nat>>, wakers: seq<Waker>)

  datatype Event =
    | BeginSuspend(t: nat)
    | AddWaiter(t: nat, e: nat)
    | SwitchOut(t: nat)
    | Park(t: nat)
    | Run(t: nat)                      // a worker takes the task from a queue
    | SignalAll(w: nat, e: nat)
    | CancelWaiters(w: nat, e: nat, tokens: set<nat>)   // the tokens within the cancelled one
    | WakeStep(w: nat)

  predicate Shape(s: State) {
    && (forall e, k | 0 <= e < |s.lists| && 0 <= k < |s.lists[e]| :: s.lists[e][k] < |s.tasks|)
    && (forall w, k | 0 <= w < |s.wakers| && 0 <= k < |s.wakers[w].chain| :: s.wakers[w].chain[k] < |s.tasks|)
    && (forall w | 0 <= w < |s.wakers| && !s.wakers[w].pc.Idle? :: s.wakers[w].pc.t < |s.tasks|)
  }

  function Init(tokens: seq<nat>, events: nat, wakers: nat): State {
    State(seq(|tokens|, i requires 0 <= i < |tokens| => Task(tokens[i], RUNNING, OnFiber, None, false, 0, 0)),
          seq(events, _ => []), seq(wakers, _ => Waker([], Idle)))
  }

  // ---------- the steps ----------

  function SetTask(s: State, t: nat, task: Task): (s': State)
    requires Shape(s) && t < |s.tasks|
    ensures Shape(s') && |s'.tasks| == |s.tasks|
  {
    s.(tasks := s.tasks[t := task])
  }

  // The park step of OnFiberReturned.
  function ParkTask(k: Task): Task {
    match k.phase
    case Out =>
      if k.status == WANTS_SUSPEND then k.(status := SUSPENDED, phase := Away)
      else if k.status == SUSPEND_SIGNALED then k.(phase := Storing)
      else k.(phase := Away)
    case Storing => k.(status := READY, phase := Placing)
    case Placing => k.(queued := true, placements := k.placements + 1, phase := Away)
    case _ => k
  }

  predicate IsVictim(s: State, t: nat, tokens: set<nat>) {
    t < |s.tasks| && s.tasks[t].token in tokens
  }

  function Pick(s: State, xs: seq<nat>, tokens: set<nat>, victims: bool): (ys: seq<nat>)
    ensures forall k | 0 <= k < |ys| :: ys[k] in xs && IsVictim(s, ys[k], tokens) == victims
    ensures forall t | t in xs && IsVictim(s, t, tokens) == victims :: t in ys
  {
    if xs == [] then []
    else
      var rest := Pick(s, xs[1..], tokens, victims);
      if IsVictim(s, xs[0], tokens) == victims then [xs[0]] + rest else rest
  }

  // Waker w takes the tasks of a chain off event e's list, leaving `rest` linked.
  function Detach(s: State, w: nat, e: nat, chain: seq<nat>, rest: seq<nat>): (s': State)
    requires Shape(s) && w < |s.wakers| && e < |s.lists|
    requires (forall k | 0 <= k < |chain| :: chain[k] < |s.tasks|) && (forall k | 0 <= k < |rest| :: rest[k] < |s.tasks|)
    ensures Shape(s') && |s'.tasks| == |s.tasks|
  {
    s.(tasks := seq(|s.tasks|, t requires 0 <= t < |s.tasks| =>
                      if t in chain then s.tasks[t].(claim := Held(w)) else s.tasks[t]),
       lists := s.lists[e := rest],
       wakers := s.wakers[w := s.wakers[w].(chain := chain)])
  }

  function SetPc(s: State, w: nat, pc: Pc): (s': State)
    requires Shape(s) && w < |s.wakers| && (!pc.Idle? ==> pc.t < |s.tasks|)
    ensures Shape(s') && |s'.tasks| == |s.tasks|
  {
    s.(wakers := s.wakers[w := s.wakers[w].(pc := pc)])
  }

  // WakeChain and, inside it, Fiber::Resume.
  function StepWaker(s: State, w: nat): (s': State)
    requires Shape(s) && w < |s.wakers|
    ensures Shape(s') && |s'.tasks| == |s.tasks| && |s'.wakers| == |s.wakers|
  {
    var Waker(chain, pc) := s.wakers[w];
    match pc
    case Idle =>
      if chain == [] then s
      else s.(wakers := s.wakers[w := Waker(chain[1..], Loading(chain[0]))])
    case Loading(t) =>
      var status := s.tasks[t].status;
      if status == SUSPENDED || status == WANTS_SUSPEND then SetPc(s, w, Seen(t, status))
      else SetTask(SetPc(s, w, Idle), t, s.tasks[t].(claim := None))
    case Seen(t, status) =>
      var k := s.tasks[t];
      if status == SUSPENDED then
        if k.status == SUSPENDED then SetTask(SetPc(s, w, Requeue(t)), t, k.(status := READY, claim := Placer(w)))
        else SetTask(SetPc(s, w, Idle), t, k.(claim := None))
      else if k.status == WANTS_SUSPEND then
        SetTask(SetPc(s, w, Idle), t, k.(status := SUSPEND_SIGNALED, claim := None))
      else SetPc(s, w, Loading(t))
    case Requeue(t) =>
      var k := s.tasks[t];
      SetTask(SetPc(s, w, Idle), t, k.(claim := None, queued := true, placements := k.placements + 1))
  }

  predicate Free(s: State, w: nat) {
    w < |s.wakers| && s.wakers[w] == Waker([], Idle)
  }

  function Step(s: State, e: Event): (s': State)
    requires Shape(s)
    ensures Shape(s') && |s'.tasks| == |s.tasks|
  {
    match e
    case BeginSuspend(t) =>
      if t < |s.tasks| && s.tasks[t].phase.OnFiber?
      then SetTask(s, t, s.tasks[t].(status := WANTS_SUSPEND, phase := Marked)) else s
    case AddWaiter(t, v) =>
      if t < |s.tasks| && v < |s.lists| && s.tasks[t].phase.Marked?
      then
        SetTask(s, t, s.tasks[t].(phase := Linked, claim := InList(v), suspensions := s.tasks[t].suspensions + 1))
          .(lists := s.lists[v := s.lists[v] + [t]])
      else s
    case SwitchOut(t) =>
      if t < |s.tasks| && s.tasks[t].phase.Linked? then SetTask(s, t, s.tasks[t].(phase := Out)) else s
    case Park(t) => if t < |s.tasks| then SetTask(s, t, ParkTask(s.tasks[t])) else s
    case Run(t) =>
      if t < |s.tasks| && s.tasks[t].queued
      then SetTask(s, t, s.tasks[t].(queued := false, status := RUNNING, phase := OnFiber)) else s
    case SignalAll(w, v) =>
      if Free(s, w) && v < |s.lists| then Detach(s, w, v, s.lists[v], []) else s
    case CancelWaiters(w, v, tokens) =>
      if Free(s, w) && v < |s.lists|
      then Detach(s, w, v, Pick(s, s.lists[v], tokens, true), Pick(s, s.lists[v], tokens, false)) else s
    case WakeStep(w) => if w < |s.wakers| then StepWaker(s, w) else s
  }

  function Runs(s: State, events: seq<Event>): (s': State)
    requires Shape(s)
    ensures Shape(s') && |s'.tasks| == |s.tasks|
  {
    if events == [] then s else Step(Runs(s, events[..|events| - 1]), events[|events| - 1])
  }

  // ---------- the invariant ----------

  predicate Distinct(xs: seq<nat>) {
    forall i, j | 0 <= i < j < |xs| :: xs[i] != xs[j]
  }

  predicate Waiting(k: Task) {
    k.claim.InList? || k.claim.Held?
  }

  // The fiber is off its stack.
  predicate SwitchedOut(p: Phase) {
    p.Out? || p.Storing? || p.Placing? || p.Away?
  }

  // A suspension in progress is owed one placement: by a claim on it, by the signal it has been
  // given, or by whoever made it READY.
  predicate TaskOk(k: Task) {
    && (k.queued ==> k.phase.Away?)
    && match k.phase
       case OnFiber => k.status == RUNNING && k.claim == None && k.suspensions == k.placements
       case Marked => k.status == WANTS_SUSPEND && k.claim == None && k.suspensions == k.placements
       case Linked => InFlight(k)
       case Out => InFlight(k)
       case Storing => k.status == SUSPEND_SIGNALED && k.claim == None && k.suspensions == k.placements + 1
       case Placing => k.status == READY && k.claim == None && k.suspensions == k.placements + 1
       case Away =>
         if k.queued then k.status == READY && k.claim == None && k.suspensions == k.placements
         else k.suspensions == k.placements + 1
              && (if k.status == SUSPENDED then Waiting(k) else k.status == READY && k.claim.Placer?)
  }

  predicate InFlight(k: Task) {
    && k.suspensions == k.placements + 1
    && (if k.status == WANTS_SUSPEND then Waiting(k) else k.status == SUSPEND_SIGNALED && k.claim == None)
  }

  predicate HasClaim(s: State, t: nat, c: Claim) {
    t < |s.tasks| && s.tasks[t].claim == c
  }

  // The tasks on a list are those claimed by it.
  predicate ListOk(s: State, e: nat)
    requires e < |s.lists|
  {
    && Distinct(s.lists[e])
    && (forall k | 0 <= k < |s.lists[e]| :: HasClaim(s, s.lists[e][k], InList(e)))
    && (forall t | 0 <= t < |s.tasks| && s.tasks[t].claim == InList(e) :: t in s.lists[e])
  }

  predicate PcOk(s: State, w: nat)
    requires w < |s.wakers|
  {
    var Waker(chain, pc) := s.wakers[w];
    match pc
    case Idle => true
    case Loading(t) => HasClaim(s, t, Held(w)) && t !in chain
    case Seen(t, status) =>
      HasClaim(s, t, Held(w)) && t !in chain
      && (status == SUSPENDED || status == WANTS_SUSPEND) && (status == SUSPENDED ==> s.tasks[t].status == SUSPENDED)
    case Requeue(t) => HasClaim(s, t, Placer(w))
  }

  predicate AtPc(pc: Pc, t: nat) {
    (pc.Loading? || pc.Seen?) && pc.t == t
  }

  // A waker holds the tasks of its chain and the one it is waking.
  predicate WakerOk(s: State, w: nat)
    requires w < |s.wakers|
  {
    var Waker(chain, pc) := s.wakers[w];
    && Distinct(chain) && PcOk(s, w)
    && (forall k | 0 <= k < |chain| :: HasClaim(s, chain[k], Held(w)))
    && (forall t | 0 <= t < |s.tasks| && s.tasks[t].claim == Held(w) :: t in chain || AtPc(pc, t))
    && (forall t | 0 <= t < |s.tasks| && s.tasks[t].claim == Placer(w) :: pc == Requeue(t))
  }

  predicate ClaimOk(s: State, c: Claim) {
    match c
    case None => true
    case InList(e) => e < |s.lists|
    case Held(w) => w < |s.wakers|
    case Placer(w) => w < |s.wakers|
  }

  predicate Inv(s: State) {
    && Shape(s)
    && (forall t | 0 <= t < |s.tasks| :: TaskOk(s.tasks[t]) && ClaimOk(s, s.tasks[t].claim))
    && (forall e | 0 <= e < |s.lists| :: ListOk(s, e))
    && (forall w | 0 <= w < |s.wakers| :: WakerOk(s, w))
  }

  // ---------- preservation ----------

  // One task moves and keeps its claim; lists and wakers stay.
  lemma TaskMoves(s: State, t: nat, k: Task)
    requires Inv(s) && t < |s.tasks| && TaskOk(k) && k.claim == s.tasks[t].claim && k.token == s.tasks[t].token
    requires s.tasks[t].status == SUSPENDED ==> k.status == SUSPENDED
    ensures Inv(SetTask(s, t, k))
  {
    var s' := SetTask(s, t, k);
    forall u, c | HasClaim(s, u, c) ensures HasClaim(s', u, c) {}
    forall e | 0 <= e < |s.lists| ensures ListOk(s', e) { assert ListOk(s, e); }
    forall w | 0 <= w < |s.wakers| ensures WakerOk(s', w) { assert WakerOk(s, w); }
  }

  lemma AddInv(s: State, t: nat, e: nat)
    requires Inv(s) && t < |s.tasks| && e < |s.lists| && s.tasks[t].phase.Marked?
    ensures Inv(Step(s, AddWaiter(t, e)))
  {
    var s' := Step(s, AddWaiter(t, e));
    forall u, c | HasClaim(s, u, c) && u != t ensures HasClaim(s', u, c) {}
    forall v | 0 <= v < |s.lists| ensures ListOk(s', v) {
      assert ListOk(s, v);
      if v == e { assert t !in s.lists[v]; }
    }
    forall w | 0 <= w < |s.wakers| ensures WakerOk(s', w) { assert WakerOk(s, w); }
  }

  // ---------- a waker detaches a chain ----------

  lemma DetachClaims(s: State, w: nat, e: nat, chain: seq<nat>, rest: seq<nat>)
    requires Inv(s) && Free(s, w) && e < |s.lists| && Distinct(chain) && Distinct(rest)
    requires forall k | 0 <= k < |chain| :: chain[k] in s.lists[e] && chain[k] !in rest
    requires forall k | 0 <= k < |rest| :: rest[k] in s.lists[e]
    requires forall t | t in s.lists[e] :: t in chain || t in rest
    requires (forall k | 0 <= k < |chain| :: chain[k] < |s.tasks|) && (forall k | 0 <= k < |rest| :: rest[k] < |s.tasks|)
    ensures Inv(Detach(s, w, e, chain, rest))
  {
    var s' := Detach(s, w, e, chain, rest);
    assert ListOk(s, e);
    forall t | t in chain ensures HasClaim(s, t, InList(e)) {}
    forall t | 0 <= t < |s.tasks| ensures TaskOk(s'.tasks[t]) && ClaimOk(s', s'.tasks[t].claim) {
      assert TaskOk(s.tasks[t]) && ClaimOk(s, s.tasks[t].claim);
    }
    DetachLists(s, w, e, chain, rest);
    DetachWakers(s, w, e, chain, rest);
  }

  lemma DetachLists(s: State, w: nat, e: nat, chain: seq<nat>, rest: seq<nat>)
    requires Inv(s) && Free(s, w) && e < |s.lists| && Distinct(rest)
    requires forall k | 0 <= k < |rest| :: rest[k] in s.lists[e] && rest[k] !in chain
    requires forall t | t in s.lists[e] :: t in chain || t in rest
    requires (forall k | 0 <= k < |chain| :: chain[k] < |s.tasks|) && (forall k | 0 <= k < |rest| :: rest[k] < |s.tasks|)
    requires forall t | t in chain :: HasClaim(s, t, InList(e))
    ensures forall v | 0 <= v < |s.lists| :: ListOk(Detach(s, w, e, chain, rest), v)
  {
    var s' := Detach(s, w, e, chain, rest);
    assert ListOk(s, e);
    forall v | 0 <= v < |s.lists| ensures ListOk(s', v) {
      assert ListOk(s, v);
      forall k | 0 <= k < |s'.lists[v]| ensures HasClaim(s', s'.lists[v][k], InList(v)) {
        var t := s'.lists[v][k];
        assert HasClaim(s, t, InList(v));
        assert t !in chain;
      }
    }
  }

  lemma DetachWakers(s: State, w: nat, e: nat, chain: seq<nat>, rest: seq<nat>)
    requires Inv(s) && Free(s, w) && e < |s.lists| && Distinct(chain)
    requires (forall k | 0 <= k < |chain| :: chain[k] < |s.tasks|) && (forall k | 0 <= k < |rest| :: rest[k] < |s.tasks|)
    requires forall t | t in chain :: HasClaim(s, t, InList(e))
    ensures forall v | 0 <= v < |s.wakers| :: WakerOk(Detach(s, w, e, chain, rest), v)
  {
    var s' := Detach(s, w, e, chain, rest);
    forall v | 0 <= v < |s.wakers| ensures WakerOk(s', v) {
      assert WakerOk(s, v);
      forall t, c | HasClaim(s, t, c) && t !in chain ensures HasClaim(s', t, c) {}
      if v == w {
        forall k | 0 <= k < |chain| ensures HasClaim(s', chain[k], Held(w)) { assert chain[k] in chain; }
      }
    }
  }

  lemma {:induction false} PickDistinct(s: State, xs: seq<nat>, tokens: set<nat>, victims: bool)
    requires Distinct(xs)
    ensures Distinct(Pick(s, xs, tokens, victims))
  {
    if xs != [] {
      PickDistinct(s, xs[1..], tokens, victims);
      assert xs[0] !in xs[1..];
    }
  }

  lemma SignalInv(s: State, w: nat, e: nat)
    requires Inv(s) && Free(s, w) && e < |s.lists|
    ensures Inv(Step(s, SignalAll(w, e)))
  {
    SignalDetach(s, w, e);
  }

  lemma SignalDetach(s: State, w: nat, e: nat)
    requires Inv(s) && Free(s, w) && e < |s.lists|
    ensures Inv(Detach(s, w, e, s.lists[e], []))
  {
    assert ListOk(s, e);
    DetachClaims(s, w, e, s.lists[e], []);
  }

  lemma CancelDetach(s: State, w: nat, e: nat, chain: seq<nat>, rest: seq<nat>, tokens: set<nat>)
    requires Inv(s) && Free(s, w) && e < |s.lists|
    requires chain == Pick(s, s.lists[e], tokens, true) && rest == Pick(s, s.lists[e], tokens, false)
    ensures (forall k | 0 <= k < |chain| :: chain[k] < |s.tasks|) && (forall k | 0 <= k < |rest| :: rest[k] < |s.tasks|)
    ensures Inv(Detach(s, w, e, chain, rest))
  {
    assert ListOk(s, e);
    PickDistinct(s, s.lists[e], tokens, true);
    PickDistinct(s, s.lists[e], tokens, false);
    DetachClaims(s, w, e, chain, rest);
  }

  lemma CancelInv(s: State, w: nat, e: nat, tokens: set<nat>)
    requires Inv(s) && Free(s, w) && e < |s.lists|
    ensures Inv(Step(s, CancelWaiters(w, e, tokens)))
  {
    CancelDetach(s, w, e, Pick(s, s.lists[e], tokens, true), Pick(s, s.lists[e], tokens, false), tokens);
  }

  // ---------- a waker's steps ----------

  // Only waker w and one task change, and the task was claimed by w.
  lemma WakeOne(s: State, s': State, w: nat, t: nat, c: Claim)
    requires Inv(s) && Shape(s') && w < |s.wakers| && t < |s.tasks| && HasClaim(s, t, c)
    requires s'.lists == s.lists && |s'.tasks| == |s.tasks| && |s'.wakers| == |s.wakers|
    requires c == Held(w) || c == Placer(w)
    requires forall u | 0 <= u < |s.tasks| && u != t :: s'.tasks[u] == s.tasks[u]
    requires forall v | 0 <= v < |s.wakers| && v != w :: s'.wakers[v] == s.wakers[v]
    requires TaskOk(s'.tasks[t]) && WakerOk(s', w)
    requires s'.tasks[t].claim in {None, Held(w), Placer(w)}
    ensures Inv(s')
  {
    forall e | 0 <= e < |s.lists| ensures ListOk(s', e) {
      assert ListOk(s, e);
      forall k | 0 <= k < |s.lists[e]| ensures HasClaim(s', s.lists[e][k], InList(e)) { assert HasClaim(s, s.lists[e][k], InList(e)); }
    }
    forall v | 0 <= v < |s.wakers| && v != w ensures WakerOk(s', v) {
      assert WakerOk(s, v);
      forall u, d | HasClaim(s, u, d) && u != t ensures HasClaim(s', u, d) {}
    }
  }

  // The next task of the chain is taken up.
  lemma NextInv(s: State, w: nat)
    requires Inv(s) && w < |s.wakers| && s.wakers[w].pc.Idle? && s.wakers[w].chain != []
    ensures Inv(StepWaker(s, w))
  {
    var s' := StepWaker(s, w);
    var t := s.wakers[w].chain[0];
    NextWaker(s, s', w, s.wakers[w].chain);
    assert TaskOk(s.tasks[t]);
    WakeOne(s, s', w, t, Held(w));
  }

  lemma NextWaker(s: State, s': State, w: nat, chain: seq<nat>)
    requires w < |s.wakers| && WakerOk(s, w) && chain != [] && s.wakers[w] == Waker(chain, Idle)
    requires s'.tasks == s.tasks && w < |s'.wakers| && s'.wakers[w] == Waker(chain[1..], Loading(chain[0]))
    ensures WakerOk(s', w) && HasClaim(s, chain[0], Held(w))
  {
    assert HasClaim(s, chain[0], Held(w)) && chain[0] !in chain[1..];
    assert forall u | u in chain :: u == chain[0] || u in chain[1..];
    forall k | 0 <= k < |chain| - 1 ensures HasClaim(s', chain[1..][k], Held(w)) { assert HasClaim(s, chain[k + 1], Held(w)); }
  }

  // A step of Resume: the task it works on, and the waker's program counter, change.
  lemma ResumeInv(s: State, w: nat, t: nat, c: Claim, pc: Pc, k: Task)
    requires Inv(s) && w < |s.wakers| && !s.wakers[w].pc.Idle? && s.wakers[w].pc.t == t && t < |s.tasks|
    requires c == (if s.wakers[w].pc.Requeue? then Placer(w) else Held(w))
    requires TaskOk(k) && k.claim in {None, Held(w), Placer(w)}
    requires !pc.Idle? ==> pc.t == t
    requires match pc
             case Idle => k.claim == None
             case Loading(_) => k.claim == Held(w)
             case Seen(_, status) => k.claim == Held(w) && status == k.status && (status == SUSPENDED || status == WANTS_SUSPEND)
             case Requeue(_) => k.claim == Placer(w)
    ensures Inv(SetTask(SetPc(s, w, pc), t, k))
  {
    var s' := SetTask(SetPc(s, w, pc), t, k);
    assert WakerOk(s, w) && PcOk(s, w);
    var chain := s.wakers[w].chain;
    assert t !in chain;
    forall i | 0 <= i < |chain| ensures HasClaim(s', chain[i], Held(w)) { assert HasClaim(s, chain[i], Held(w)); }
    WakeOne(s, s', w, t, c);
  }

  lemma LoadInv(s: State, w: nat)
    requires Inv(s) && w < |s.wakers| && s.wakers[w].pc.Loading?
    ensures Inv(StepWaker(s, w))
  {
    var t := s.wakers[w].pc.t;
    assert WakerOk(s, w) && PcOk(s, w) && TaskOk(s.tasks[t]);
    ResumeInv(s, w, t, Held(w), Seen(t, s.tasks[t].status), s.tasks[t]);
    assert SetTask(SetPc(s, w, Seen(t, s.tasks[t].status)), t, s.tasks[t]) == StepWaker(s, w);
  }

  lemma SwapInv(s: State, w: nat)
    requires Inv(s) && w < |s.wakers| && s.wakers[w].pc.Seen?
    ensures Inv(StepWaker(s, w))
  {
    var Seen(t, status) := s.wakers[w].pc;
    var k := s.tasks[t];
    assert WakerOk(s, w) && PcOk(s, w) && TaskOk(k);
    if status == SUSPENDED { ResumeInv(s, w, t, Held(w), Requeue(t), k.(status := READY, claim := Placer(w))); }
    else if k.status == WANTS_SUSPEND {
      ResumeInv(s, w, t, Held(w), Idle, k.(status := SUSPEND_SIGNALED, claim := None));
    } else {
      ResumeInv(s, w, t, Held(w), Loading(t), k);
      assert SetTask(SetPc(s, w, Loading(t)), t, k) == StepWaker(s, w);
    }
  }

  lemma RequeueInv(s: State, w: nat)
    requires Inv(s) && w < |s.wakers| && s.wakers[w].pc.Requeue?
    ensures Inv(StepWaker(s, w))
  {
    var t := s.wakers[w].pc.t;
    var k := s.tasks[t];
    assert WakerOk(s, w) && PcOk(s, w) && TaskOk(k);
    ResumeInv(s, w, t, Placer(w), Idle, k.(claim := None, queued := true, placements := k.placements + 1));
  }

  lemma WakerInv(s: State, w: nat)
    requires Inv(s) && w < |s.wakers|
    ensures Inv(StepWaker(s, w))
  {
    match s.wakers[w].pc
    case Idle => if s.wakers[w].chain != [] { NextInv(s, w); }
    case Loading(_) => LoadInv(s, w);
    case Seen(_, _) => SwapInv(s, w);
    case Requeue(_) => RequeueInv(s, w);
  }

  lemma FiberInv(s: State, e: Event)
    requires Inv(s) && (e.BeginSuspend? || e.SwitchOut? || e.Park? || e.Run?)
    ensures Inv(Step(s, e))
  {
    var t := e.t;
    if t < |s.tasks| {
      assert TaskOk(s.tasks[t]);
      var k := Step(s, e).tasks[t];
      assert Step(s, e) == SetTask(s, t, k);
      TaskMoves(s, t, k);
    }
  }

  lemma StepInv(s: State, e: Event)
    requires Inv(s)
    ensures Inv(Step(s, e))
  {
    match e
    case AddWaiter(t, v) => if t < |s.tasks| && v < |s.lists| && s.tasks[t].phase.Marked? { AddInv(s, t, v); }
    case SignalAll(w, v) => if Free(s, w) && v < |s.lists| { SignalInv(s, w, v); }
    case CancelWaiters(w, v, tokens) => if Free(s, w) && v < |s.lists| { CancelInv(s, w, v, tokens); }
    case WakeStep(w) => if w < |s.wakers| { WakerInv(s, w); }
    case _ => FiberInv(s, e);
  }

  lemma {:induction false} RunInv(tokens: seq<nat>, lists: nat, wakers: nat, events: seq<Event>)
    ensures Inv(Runs(Init(tokens, lists, wakers), events))
  {
    if events != [] {
      RunInv(tokens, lists, wakers, events[..|events| - 1]);
      StepInv(Runs(Init(tokens, lists, wakers), events[..|events| - 1]), events[|events| - 1]);
    }
  }

  // ---------- what every run keeps ----------

  /**
    Every suspension leads to at most one placement, and none is forgotten: a suspension that is
    not yet placed is on an event's list, in a waker's hands, or with its own worker's park step.
   */
  lemma PlacedExactlyOnce(tokens: seq<nat>, lists: nat, wakers: nat, events: seq<Event>, t: nat)
    requires t < |Runs(Init(tokens, lists, wakers), events).tasks|
    ensures var s := Runs(Init(tokens, lists, wakers), events);
            var k := s.tasks[t];
            && k.placements <= k.suspensions <= k.placements + 1
            && (k.suspensions == k.placements <==> k.phase.OnFiber? || k.phase.Marked? || k.queued)
            && (k.suspensions > k.placements ==>
                  || (exists e :: 0 <= e < |s.lists| && t in s.lists[e])
                  || (exists w :: 0 <= w < |s.wakers| && (t in s.wakers[w].chain || (!s.wakers[w].pc.Idle? && s.wakers[w].pc.t == t)))
                  || (k.status == SUSPEND_SIGNALED && !k.phase.Away?)
                  || k.phase.Placing?)
  {
    RunInv(tokens, lists, wakers, events);
    var s := Runs(Init(tokens, lists, wakers), events);
    var k := s.tasks[t];
    assert TaskOk(k) && ClaimOk(s, k.claim);
    if k.claim.InList? { assert ListOk(s, k.claim.event); }
    else if k.claim.Held? || k.claim.Placer? { assert WakerOk(s, k.claim.waker); }
  }

  // If the step placed the task, its fiber had switched out and its suspension was still owed.
  predicate PlacesWell(k: Task, k': Task) {
    k'.placements > k.placements ==>
      SwitchedOut(k.phase) && !k.queued && k.status == READY && k'.placements == k.placements + 1 == k.suspensions
  }

  lemma WakePlaces(s: State, w: nat, t: nat)
    requires Inv(s) && w < |s.wakers| && t < |s.tasks|
    ensures PlacesWell(s.tasks[t], StepWaker(s, w).tasks[t])
  {
    assert WakerOk(s, w) && PcOk(s, w) && TaskOk(s.tasks[t]);
  }

  lemma OwnPlaces(s: State, e: Event, t: nat)
    requires Inv(s) && t < |s.tasks| && (e.BeginSuspend? || e.SwitchOut? || e.Park? || e.Run? || e.AddWaiter?)
    ensures PlacesWell(s.tasks[t], Step(s, e).tasks[t])
  {
    assert TaskOk(s.tasks[t]);
  }

  lemma DetachPlaces(s: State, e: Event, t: nat)
    requires Shape(s) && t < |s.tasks| && (e.SignalAll? || e.CancelWaiters?)
    ensures t < |Step(s, e).tasks| && Step(s, e).tasks[t].placements == s.tasks[t].placements
  {
  }

  lemma StepPlaces(s: State, e: Event, t: nat)
    requires Inv(s) && t < |s.tasks|
    ensures PlacesWell(s.tasks[t], Step(s, e).tasks[t])
  {
    match e
    case WakeStep(w) => if w < |s.wakers| { WakePlaces(s, w, t); }
    case SignalAll(_, _) => DetachPlaces(s, e, t);
    case CancelWaiters(_, _, _) => DetachPlaces(s, e, t);
    case _ => OwnPlaces(s, e, t);
  }

  /** A placement happens only after the fiber has switched out. */
  lemma PlacedOnlySwitchedOut(tokens: seq<nat>, lists: nat, wakers: nat, events: seq<Event>, e: Event, t: nat)
    requires t < |tokens|
    ensures var s := Runs(Init(tokens, lists, wakers), events);
            |s.tasks| == |tokens| && PlacesWell(s.tasks[t], Step(s, e).tasks[t])
  {
    RunInv(tokens, lists, wakers, events);
    StepPlaces(Runs(Init(tokens, lists, wakers), events), e, t);
  }

  /**
    A wake never fails: the task that a waker resumes is on its way out or parked, so one of the
    two compare-and-swaps applies to it, and the one from SUSPENDED cannot lose.
   */
  lemma ResumeNeverDeclines(tokens: seq<nat>, lists: nat, wakers: nat, events: seq<Event>, w: nat)
    requires w < |Runs(Init(tokens, lists, wakers), events).wakers|
    ensures var s := Runs(Init(tokens, lists, wakers), events);
            match s.wakers[w].pc
            case Idle => true
            case Loading(t) => s.tasks[t].status == WANTS_SUSPEND || s.tasks[t].status == SUSPENDED
            case Seen(t, status) =>
              && (status == SUSPENDED ==> s.tasks[t].status == SUSPENDED)
              && (s.tasks[t].status == WANTS_SUSPEND || s.tasks[t].status == SUSPENDED)
            case Requeue(t) => s.tasks[t].status == READY && s.tasks[t].phase.Away?
  {
    RunInv(tokens, lists, wakers, events);
    var s := Runs(Init(tokens, lists, wakers), events);
    assert WakerOk(s, w) && PcOk(s, w);
    if !s.wakers[w].pc.Idle? { assert TaskOk(s.tasks[s.wakers[w].pc.t]); }
  }

  predicate AtRest(s: State) {
    && (forall w | 0 <= w < |s.wakers| :: Free(s, w))
    && (forall t | 0 <= t < |s.tasks| :: s.tasks[t].phase.OnFiber? || s.tasks[t].phase.Away?)
  }

  predicate OnOneList(s: State, t: nat) {
    exists e :: 0 <= e < |s.lists| && t in s.lists[e] && OnlyOn(s, t, e)
  }

  predicate OnlyOn(s: State, t: nat, e: nat) {
    forall v | 0 <= v < |s.lists| && v != e :: t !in s.lists[v]
  }

  /** At rest a task runs, is queued to run, or is parked on exactly the event's list it waits on. */
  lemma RestMeansRunningQueuedOrLinked(tokens: seq<nat>, lists: nat, wakers: nat, events: seq<Event>, t: nat)
    requires var s := Runs(Init(tokens, lists, wakers), events); AtRest(s) && t < |s.tasks|
    ensures var s := Runs(Init(tokens, lists, wakers), events);
            var k := s.tasks[t];
            if k.phase.OnFiber? || k.queued then forall e | 0 <= e < |s.lists| :: t !in s.lists[e]
            else k.status == SUSPENDED && OnOneList(s, t)
  {
    RunInv(tokens, lists, wakers, events);
    var s := Runs(Init(tokens, lists, wakers), events);
    var k := s.tasks[t];
    assert TaskOk(k) && ClaimOk(s, k.claim);
    forall e | 0 <= e < |s.lists| && t in s.lists[e] ensures k.claim == InList(e) { assert ListOk(s, e); }
    assert k.claim.Held? || k.claim.Placer? ==> WakerOk(s, k.claim.waker) && Free(s, k.claim.waker);
    if k.claim.InList? { assert ListOk(s, k.claim.event) && OnlyOn(s, t, k.claim.event); }
  }

  /** A token cancel takes the waiters within the token off the list; the others stay linked in order. */
  lemma {:induction false} CancelKeepsOrder(s: State, xs: seq<nat>, tokens: set<nat>, victims: bool) returns (at: seq<nat>)
    ensures PicksAt(xs, Pick(s, xs, tokens, victims), at)
  {
    if xs == [] { at := []; }
    else {
      var rest := CancelKeepsOrder(s, xs[1..], tokens, victims);
      var picked := Pick(s, xs[1..], tokens, victims);
      at := seq(|rest|, i requires 0 <= i < |rest| => rest[i] + 1);
      PicksLater(xs, picked, rest, at);
      if IsVictim(s, xs[0], tokens) == victims {
        PicksFirst(xs, picked, at);
        at := [0] + at;
      }
    }
  }

  // ys is xs at increasing positions.
  predicate PicksAt(xs: seq<nat>, ys: seq<nat>, at: seq<nat>) {
    && |at| == |ys|
    && (forall k | 0 <= k < |at| :: at[k] < |xs| && ys[k] == xs[at[k]])
    && (forall i, j | 0 <= i < j < |at| :: at[i] < at[j])
  }

  lemma PicksLater(xs: seq<nat>, ys: seq<nat>, at: seq<nat>, later: seq<nat>)
    requires xs != [] && PicksAt(xs[1..], ys, at) && |later| == |at|
    requires forall k | 0 <= k < |at| :: later[k] == at[k] + 1
    ensures PicksAt(xs, ys, later) && forall k | 0 <= k < |later| :: later[k] > 0
  {
  }

  lemma PicksFirst(xs: seq<nat>, ys: seq<nat>, at: seq<nat>)
    requires xs != [] && PicksAt(xs, ys, at) && forall k | 0 <= k < |at| :: at[k] > 0
    ensures PicksAt(xs, [xs[0]] + ys, [0] + at)
  {
  }

  // ---------- what a call does to the lists ----------

  lemma {:induction false} TokensKept(tokens: seq<nat>, lists: nat, wakers: nat, events: seq<Event>, t: nat)
    requires t < |tokens|
    ensures var s := Runs(Init(tokens, lists, wakers), events); |s.tasks| == |tokens| && s.tasks[t].token == tokens[t]
  {
    if events != [] {
      TokensKept(tokens, lists, wakers, events[..|events| - 1], t);
      TokenStep(Runs(Init(tokens, lists, wakers), events[..|events| - 1]), events[|events| - 1], t);
    }
  }

  lemma TokenStep(s: State, e: Event, t: nat)
    requires Shape(s) && t < |s.tasks|
    ensures Step(s, e).tasks[t].token == s.tasks[t].token
  {
  }

  // Nothing but claims on the detached tasks differs, outside list e and waker w.
  predicate OnlyDetached(s: State, s': State, w: nat, e: nat)
    requires w < |s.wakers| && e < |s.lists|
  {
    && |s'.tasks| == |s.tasks| && |s'.lists| == |s.lists| && |s'.wakers| == |s.wakers|
    && (forall v | 0 <= v < |s.lists| && v != e :: s'.lists[v] == s.lists[v])
    && (forall v | 0 <= v < |s.wakers| && v != w :: s'.wakers[v] == s.wakers[v])
    && s'.wakers[w].pc == s.wakers[w].pc
    && (forall t | 0 <= t < |s.tasks| ::
          s'.tasks[t] == if t in s'.wakers[w].chain then s.tasks[t].(claim := Held(w)) else s.tasks[t])
  }

  /** SignalAll takes the whole list, in order, and touches nothing else. */
  lemma SignalTakesAll(s: State, w: nat, e: nat)
    requires Shape(s) && Free(s, w) && e < |s.lists|
    ensures var s' := Step(s, SignalAll(w, e));
            s'.lists[e] == [] && s'.wakers[w].chain == s.lists[e] && OnlyDetached(s, s', w, e)
  {
  }

  ghost predicate InOrder(xs: seq<nat>, ys: seq<nat>) {
    exists at :: PicksAt(xs, ys, at)
  }

  /** CancelWaiters takes exactly the waiters that were created with a token within the cancelled one;
      the others stay linked; both keep the order of the list, and nothing else is touched. */
  lemma CancelTakesTheToken(tokens: seq<nat>, lists: nat, wakers: nat, events: seq<Event>, w: nat, e: nat, within: set<nat>)
    requires var s := Runs(Init(tokens, lists, wakers), events); Free(s, w) && e < |s.lists|
    ensures var s := Runs(Init(tokens, lists, wakers), events);
            var s' := Step(s, CancelWaiters(w, e, within));
            && OnlyDetached(s, s', w, e)
            && (forall t | t in s.lists[e] :: t < |tokens|)
            && (forall t | t in s.lists[e] && tokens[t] in within :: t in s'.wakers[w].chain && t !in s'.lists[e])
            && (forall t | t in s.lists[e] && tokens[t] !in within :: t in s'.lists[e] && t !in s'.wakers[w].chain)
            && InOrder(s.lists[e], s'.wakers[w].chain) && InOrder(s.lists[e], s'.lists[e])
  {
    var s := Runs(Init(tokens, lists, wakers), events);
    var s' := Step(s, CancelWaiters(w, e, within));
    var taken := CancelKeepsOrder(s, s.lists[e], within, true);
    var left := CancelKeepsOrder(s, s.lists[e], within, false);
    assert PicksAt(s.lists[e], s'.wakers[w].chain, taken) && PicksAt(s.lists[e], s'.lists[e], left);
    SameTasks(Init(tokens, lists, wakers), events);
    forall t | t in s.lists[e] ensures t < |tokens| && (IsVictim(s, t, within) <==> tokens[t] in within) {
      TokensKept(tokens, lists, wakers, events, t);
    }
  }

  lemma SameTasks(s: State, events: seq<Event>)
    requires Shape(s)
    ensures |Runs(s, events).tasks| == |s.tasks|
  {
  }

  /** AddWaiter links the task at the end of that event's list and of no other. */
  lemma AddLinksLast(s: State, t: nat, e: nat)
    requires Shape(s) && t < |s.tasks| && e < |s.lists| && s.tasks[t].phase.Marked?
    ensures var s' := Step(s, AddWaiter(t, e));
            && s'.lists[e] == s.lists[e] + [t] && s'.wakers == s.wakers && |s'.lists| == |s.lists|
            && (forall v | 0 <= v < |s.lists| && v != e :: s'.lists[v] == s.lists[v])
            && (forall u | 0 <= u < |s.tasks| && u != t :: s'.tasks[u] == s.tasks[u])
  {
  }

  // ---------- a call left alone ----------

  /** A fiber that waits on an event, with nobody else moving, ends up parked at the end of its list. */
  lemma WaitAlone(s: State, t: nat, e: nat)
    requires Inv(s) && t < |s.tasks| && e < |s.lists| && s.tasks[t].phase.OnFiber?
    ensures var f := Step(Step(Step(Step(s, BeginSuspend(t)), AddWaiter(t, e)), SwitchOut(t)), Park(t));
            && f.tasks[t].status == SUSPENDED && f.tasks[t].phase.Away? && !f.tasks[t].queued
            && f.lists == s.lists[e := s.lists[e] + [t]] && f.wakers == s.wakers
            && f.tasks[t].suspensions == s.tasks[t].suspensions + 1
  {
    assert TaskOk(s.tasks[t]);
  }

  /** A fiber that was signalled on its way out is placed by its own park step. */
  lemma ParkAlone(s: State, t: nat)
    requires Inv(s) && t < |s.tasks| && s.tasks[t].phase.Out? && s.tasks[t].status == SUSPEND_SIGNALED
    ensures var f := Step(Step(Step(s, Park(t)), Park(t)), Park(t));
            && f.tasks[t].queued && f.tasks[t].status == READY && f.tasks[t].placements == s.tasks[t].placements + 1
            && f.lists == s.lists && f.wakers == s.wakers
  {
  }

  // Waker w takes n steps and nobody else moves.
  function WakeFor(s: State, w: nat, n: nat): (f: State)
    requires Shape(s) && w < |s.wakers|
    ensures Shape(f) && |f.tasks| == |s.tasks| && |f.wakers| == |s.wakers|
    decreases n
  {
    if n == 0 then s else WakeFor(StepWaker(s, w), w, n - 1)
  }

  // A wake reached the task: it is placed if it was parked, and signalled if it was still on its way out.
  predicate Woken(k: Task, k': Task) {
    if k.status == SUSPENDED then k'.queued && k'.status == READY && k'.placements == k.placements + 1
    else k'.status == SUSPEND_SIGNALED && k'.phase == k.phase
  }

  lemma WakeOnce(s: State, w: nat, n: nat)
    requires Shape(s) && w < |s.wakers|
    ensures WakeFor(s, w, n + 1) == WakeFor(StepWaker(s, w), w, n)
  {
  }

  // Resume on a parked task: the status is loaded, swapped for READY, and the task placed.
  lemma WakeParked(s: State, w: nat, t: nat)
    requires Inv(s) && w < |s.wakers| && s.wakers[w].pc == Loading(t) && s.tasks[t].status == SUSPENDED
    ensures var f := StepWaker(StepWaker(StepWaker(s, w), w), w);
            && Inv(f) && f.lists == s.lists && f.wakers == s.wakers[w := s.wakers[w].(pc := Idle)]
            && Woken(s.tasks[t], f.tasks[t]) && f.tasks == s.tasks[t := f.tasks[t]]
  {
    WakerInv(s, w);
    WakerInv(StepWaker(s, w), w);
    WakerInv(StepWaker(StepWaker(s, w), w), w);
  }

  // Resume on a task still on its way out: the status is loaded and swapped for the signal.
  lemma WakeLeaving(s: State, w: nat, t: nat)
    requires Inv(s) && w < |s.wakers| && s.wakers[w].pc == Loading(t) && s.tasks[t].status == WANTS_SUSPEND
    ensures var f := StepWaker(StepWaker(s, w), w);
            && Inv(f) && f.lists == s.lists && f.wakers == s.wakers[w := s.wakers[w].(pc := Idle)]
            && Woken(s.tasks[t], f.tasks[t]) && f.tasks == s.tasks[t := f.tasks[t]]
  {
    WakerInv(s, w);
    WakerInv(StepWaker(s, w), w);
  }

  lemma TakesUp(s: State, w: nat)
    requires Inv(s) && w < |s.wakers| && s.wakers[w].pc.Idle? && s.wakers[w].chain != []
    ensures var f := StepWaker(s, w);
            var chain := s.wakers[w].chain;
            && Inv(f) && f.lists == s.lists && f.tasks == s.tasks
            && f.wakers == s.wakers[w := Waker(chain[1..], Loading(chain[0]))]
            && (s.tasks[chain[0]].status == SUSPENDED || s.tasks[chain[0]].status == WANTS_SUSPEND)
  {
    var t := s.wakers[w].chain[0];
    assert WakerOk(s, w) && HasClaim(s, t, Held(w)) && TaskOk(s.tasks[t]);
    WakerInv(s, w);
  }

  lemma WakeFirst(s: State, w: nat) returns (n: nat)
    requires Inv(s) && w < |s.wakers| && s.wakers[w].pc.Idle? && s.wakers[w].chain != []
    ensures var f := WakeFor(s, w, n);
            var t := s.wakers[w].chain[0];
            && Inv(f) && f.lists == s.lists && f.wakers == s.wakers[w := Waker(s.wakers[w].chain[1..], Idle)]
            && Woken(s.tasks[t], f.tasks[t]) && f.tasks == s.tasks[t := f.tasks[t]]
  {
    hide StepWaker;
    var t := s.wakers[w].chain[0];
    TakesUp(s, w);
    var s1 := StepWaker(s, w);
    var s2 := StepWaker(s1, w);
    if s.tasks[t].status == SUSPENDED {
      WakeParked(s1, w, t);
      n := 4;
      WakeOnce(s, w, 3);
      WakeOnce(s1, w, 2);
      WakeOnce(s2, w, 1);
      WakeOnce(StepWaker(s2, w), w, 0);
    } else {
      WakeLeaving(s1, w, t);
      n := 3;
      WakeOnce(s, w, 2);
      WakeOnce(s1, w, 1);
      WakeOnce(s2, w, 0);
    }
  }

  /** A waker left alone wakes every task of its chain and is free again; nobody else is touched. */
  lemma {:induction false} WakeAlone(s: State, w: nat) returns (n: nat)
    requires Inv(s) && w < |s.wakers| && s.wakers[w].pc.Idle?
    ensures var f := WakeFor(s, w, n);
            && Inv(f) && Free(f, w) && f.lists == s.lists
            && (forall v | 0 <= v < |s.wakers| && v != w :: f.wakers[v] == s.wakers[v])
            && (forall t | 0 <= t < |s.tasks| ::
                  if t in s.wakers[w].chain then Woken(s.tasks[t], f.tasks[t]) else f.tasks[t] == s.tasks[t])
    decreases |s.wakers[w].chain|
  {
    hide StepWaker;
    if s.wakers[w].chain == [] { n := 0; }
    else {
      var m := WakeFirst(s, w);
      var k := WakeAlone(WakeFor(s, w, m), w);
      n := m + k;
      WakeForSum(s, w, m, k);
      assert WakerOk(s, w);
    }
  }

  lemma {:induction false} WakeForSum(s: State, w: nat, m: nat, k: nat)
    requires Shape(s) && w < |s.wakers|
    ensures WakeFor(s, w, m + k) == WakeFor(WakeFor(s, w, m), w, k)
    decreases m
  {
    hide StepWaker, Shape;
    if m > 0 {
      var s' := StepWaker(s, w);
      WakeForSum(s', w, m - 1, k);
      assert WakeFor(s, w, m) == WakeFor(s', w, m - 1);
      assert WakeFor(s, w, m + k) == WakeFor(s', w, m + k - 1) == WakeFor(s', w, (m - 1) + k);
    }
  }

  /** A placed task runs again when a worker takes it, and once for its placement. */
  lemma RunAlone(s: State, t: nat)
    requires Inv(s) && t < |s.tasks| && s.tasks[t].queued
    ensures var f := Step(s, Run(t));
            f.tasks[t].phase.OnFiber? && f.tasks[t].status == RUNNING && !f.tasks[t].queued && Step(f, Run(t)) == f
  {
  }
}
