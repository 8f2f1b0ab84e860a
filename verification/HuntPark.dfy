/**
  The hunt counter, the worker park and the idle stack (src/TaskScheduler.cpp:690-806,
  src/Thread.cpp:1120-1265 and Thread::Wake), as a transition system of single atomic
  accesses.  Agents below `Workers(s)` are compute workers; the agents above are outside
  threads that pop the idle stack to place work.  No worker is reserved (K = 0), main is
  out of the pool and the pool is not stopping.

  Tasks are abstract: whether a worker finds one, and whether its own queues have work at
  the recheck, is left open, so the results hold for every workload.
 */
module HuntPark {

  datatype Permit = Empty | Notified | Parked

  // The packed stack word: a version and the index of the top node plus one (0 for none).
  datatype Head = Head(version: nat, index: nat)

  datatype Pc =
    | Hunting                        // in the find loop, counted in `searching`
    | TryPark(seen: nat)             // TryLeaveHuntForPark after its load, still counted
    | LeftHunt                       // out of the hunt; a leftover permit is consumed next
    | ParkCas                        // EMPTY -> PARKED next
    | ConsumeLate                    // the park was refused by a permit, which is consumed next
    | ToHunt                         // enterHunt next
    | Arm                            // parked; armed.store(1) next
    | CheckLinked                    // load of idleLinked next
    | MarkLinked                     // idleLinked.store(true) next
    | LoadTop
    | SetNext(head: Head)
    | PushCas(head: Head)
    | Recheck                        // own queues
    | ReadSearching                  // the last recheck: is anybody hunting?
    | Disarm                         // the recheck failed: unregister next
    | Unpark                         // PARKED -> EMPTY next
    | UnparkConsume                  // NOTIFIED -> EMPTY next
    | Asleep                         // blocked while the word is PARKED
    | WakeConsume                    // NOTIFIED -> EMPTY next
    | WakeDisarm                     // unregister next
    | Running                        // outside the hunt: a task body, or an outside thread
    | PopLoad                        // PopIdleWorker: load of the stack word next
    | PopNext(head: Head)
    | PopCas(head: Head, nxt: nat)
    | PopUnlink(q: nat)              // popped q; idleLinked.store(false) next
    | PopDisarm(q: nat)              // armed.exchange(0) next
    | PopState(q: nat)               // load of q's workerState next
    | Notify(q: nat)                 // Wake: exchange to NOTIFIED next

  datatype State = State(
    searching: nat,
    permit: seq<Permit>,
    armed: seq<bool>,
    linked: seq<bool>,
    next: seq<nat>,
    top: Head,
    pc: seq<Pc>,
    stack: seq<nat>,                 // history: the workers on the stack, top first
    leaver: seq<bool>,               // history: the agent's pop belongs to a LeaveHunt that took `searching` to 0
    idleCount: int,                  // idleCount_
    toAdd: nat,                      // pushes and arms taken whose fetch_add or fetch_sub of
    toSub: nat,                      // idleCount_ is still to come
    skipped: nat)                    // history: registrations that found their node still linked

  datatype Event =
    | AgentStep(a: nat, choice: bool)
    | PlaceWork(a: nat)              // a thread outside the hunt pops an idle worker
    | Kick(q: nat)                   // NotifyWorker by anybody, at any time
    | Count(up: bool)                // a fetch_add or fetch_sub of idleCount_ that is owed, at any later time

  function Workers(s: State): nat {
    |s.permit|
  }

  predicate Shape(s: State) {
    var n := Workers(s);
    |s.armed| == n && |s.linked| == n && |s.next| == n && n <= |s.pc| && |s.leaver| == |s.pc|
  }

  // Every worker starts in the hunt.
  function Init(workers: nat, outside: nat): State {
    State(workers, seq(workers, _ => Empty), seq(workers, _ => false), seq(workers, _ => false),
          seq(workers, _ => 0), Head(0, 0),
          seq(workers, _ => Hunting) + seq(outside, _ => Running), [],
          seq(workers + outside, _ => false), 0, 0, 0, 0)
  }

  // ---------- the steps ----------

  function Goto(s: State, a: nat, p: Pc): State
    requires a < |s.pc|
  {
    s.(pc := s.pc[a := p])
  }

  function SetPermit(s: State, q: nat, v: Permit): State
    requires q < |s.permit|
  {
    s.(permit := s.permit[q := v])
  }

  // armed.exchange(0); a fetch_sub is owed if there was an arm to take.
  function TakeArm(s: State, q: nat): State
    requires q < |s.armed|
  {
    s.(armed := s.armed[q := false], toSub := s.toSub + if s.armed[q] then 1 else 0)
  }

  function StepHunt(s: State, w: nat, choice: bool): (s': State)
    requires Shape(s) && w < Workers(s)
    ensures Shape(s') && Workers(s') == Workers(s) && |s'.pc| == |s.pc|
  {
    match s.pc[w]
    case Hunting =>
      if choice then   // found a task: LeaveHunt, and the 1 -> 0 edge hands off
        if s.searching == 0 then s
        else Goto(s, w, if s.searching == 1 then PopLoad else Running).(
               searching := s.searching - 1, leaver := s.leaver[w := s.searching == 1])
      else Goto(s, w, TryPark(s.searching))
    case TryPark(seen) =>
      if seen <= 1 then Goto(s, w, Hunting)   // the last hunter stays up
      else if choice && s.searching == seen then Goto(s, w, LeftHunt).(searching := seen - 1)
      else Goto(s, w, TryPark(s.searching))
    case LeftHunt =>
      if s.permit[w] == Notified then SetPermit(Goto(s, w, ToHunt), w, Empty) else Goto(s, w, ParkCas)
    case ParkCas =>
      if s.permit[w] == Empty then SetPermit(Goto(s, w, Arm), w, Parked)
      else Goto(s, w, if s.permit[w] == Notified then ConsumeLate else ToHunt)
    case ConsumeLate =>
      SetPermit(Goto(s, w, ToHunt), w, if s.permit[w] == Notified then Empty else s.permit[w])
    case ToHunt => Goto(s, w, Hunting).(searching := s.searching + 1)
    case _ => s
  }

  function StepRegister(s: State, w: nat, choice: bool): (s': State)
    requires Shape(s) && w < Workers(s)
    ensures Shape(s') && Workers(s') == Workers(s) && |s'.pc| == |s.pc|
  {
    match s.pc[w]
    case Arm => Goto(s, w, CheckLinked).(armed := s.armed[w := true])
    case CheckLinked =>
      if s.linked[w] then Goto(s, w, Recheck).(skipped := s.skipped + 1) else Goto(s, w, MarkLinked)
    case MarkLinked => Goto(s, w, LoadTop).(linked := s.linked[w := true])
    case LoadTop => Goto(s, w, SetNext(s.top))
    case SetNext(head) => Goto(s, w, PushCas(head)).(next := s.next[w := head.index])
    case PushCas(head) =>
      if choice && s.top == head
      then Goto(s, w, Recheck).(top := Head(head.version + 1, w + 1), stack := [w] + s.stack,
                                toAdd := s.toAdd + 1)
      else Goto(s, w, SetNext(s.top))
    case _ => s
  }

  function StepPark(s: State, w: nat, choice: bool): (s': State)
    requires Shape(s) && w < Workers(s)
    ensures Shape(s') && Workers(s') == Workers(s) && |s'.pc| == |s.pc|
  {
    match s.pc[w]
    case Recheck => Goto(s, w, if choice then Disarm else ReadSearching)
    case ReadSearching => Goto(s, w, if s.searching == 0 then Disarm else Asleep)
    case Disarm => TakeArm(Goto(s, w, Unpark), w)
    case Unpark =>
      if s.permit[w] == Parked then SetPermit(Goto(s, w, ToHunt), w, Empty) else Goto(s, w, UnparkConsume)
    case UnparkConsume =>
      SetPermit(Goto(s, w, ToHunt), w, if s.permit[w] == Notified then Empty else s.permit[w])
    case Asleep => if s.permit[w] == Parked then s else Goto(s, w, WakeConsume)
    case WakeConsume =>
      SetPermit(Goto(s, w, WakeDisarm), w, if s.permit[w] == Notified then Empty else s.permit[w])
    case WakeDisarm => TakeArm(Goto(s, w, ToHunt), w)
    case _ => s
  }

  function StepPop(s: State, a: nat, choice: bool): (s': State)
    requires Shape(s) && a < |s.pc|
    ensures Shape(s') && Workers(s') == Workers(s) && |s'.pc| == |s.pc|
  {
    var n := Workers(s);
    match s.pc[a]
    case PopLoad => Goto(s, a, if s.top.index == 0 || s.top.index > n then Running else PopNext(s.top))
    case PopNext(head) =>
      if 0 < head.index <= n then Goto(s, a, PopCas(head, s.next[head.index - 1])) else s
    case PopCas(head, nxt) =>
      if choice && s.top == head && 0 < head.index
      then Goto(s, a, PopUnlink(head.index - 1)).(
             top := Head(head.version + 1, nxt), stack := if s.stack == [] then [] else s.stack[1..])
      else Goto(s, a, PopLoad)
    case PopUnlink(q) => if q < n then Goto(s, a, PopDisarm(q)).(linked := s.linked[q := false]) else s
    case PopDisarm(q) =>
      if q < n then TakeArm(Goto(s, a, if s.armed[q] then PopState(q) else PopLoad), q) else s
    case PopState(q) => if q < n then Goto(s, a, if s.permit[q] == Parked then Notify(q) else PopLoad) else s
    case Notify(q) => if q < n then SetPermit(Goto(s, a, Running), q, Notified) else s
    case _ => s
  }

  predicate PopPc(p: Pc) {
    p.PopLoad? || p.PopNext? || p.PopCas? || p.PopUnlink? || p.PopDisarm? || p.PopState? || p.Notify?
  }

  predicate RegisterPc(p: Pc) {
    p.Arm? || p.CheckLinked? || p.MarkLinked? || p.LoadTop? || p.SetNext? || p.PushCas?
  }

  predicate ParkPc(p: Pc) {
    p.Recheck? || p.ReadSearching? || p.Disarm? || p.Unpark? || p.UnparkConsume? || p.Asleep?
    || p.WakeConsume? || p.WakeDisarm?
  }

  predicate Acts(e: Event) {
    e.AgentStep? || e.PlaceWork?
  }

  function CountIdle(s: State, up: bool): State {
    if up && s.toAdd > 0 then s.(idleCount := s.idleCount + 1, toAdd := s.toAdd - 1)
    else if !up && s.toSub > 0 then s.(idleCount := s.idleCount - 1, toSub := s.toSub - 1)
    else s
  }

  function Step(s: State, e: Event): (s': State)
    requires Shape(s)
    ensures Shape(s') && Workers(s') == Workers(s) && |s'.pc| == |s.pc|
    ensures forall b | 0 <= b < |s.pc| && (!Acts(e) || b != e.a) :: s'.pc[b] == s.pc[b]
  {
    match e
    case AgentStep(a, choice) =>
      if a >= |s.pc| then s
      else if PopPc(s.pc[a]) then StepPop(s, a, choice)
      else if a >= Workers(s) then s
      else if s.pc[a].Running? then Goto(s, a, ToHunt)   // the body is over
      else if RegisterPc(s.pc[a]) then StepRegister(s, a, choice)
      else if ParkPc(s.pc[a]) then StepPark(s, a, choice)
      else StepHunt(s, a, choice)
    case PlaceWork(a) =>
      if a < |s.pc| && s.pc[a].Running? then Goto(s, a, PopLoad).(leaver := s.leaver[a := false]) else s
    case Kick(q) => if q < Workers(s) then SetPermit(s, q, Notified) else s
    case Count(up) => CountIdle(s, up)
  }

  function Run(s: State, events: seq<Event>): (s': State)
    requires Shape(s)
    ensures Shape(s')
  {
    if events == [] then s
    else Step(Run(s, events[..|events| - 1]), events[|events| - 1])
  }

  // ---------- the invariant: the idle stack ----------

  predicate Pushing(p: Pc) {
    p.LoadTop? || p.SetNext? || p.PushCas?
  }

  predicate Distinct(xs: seq<nat>) {
    forall i, j | 0 <= i < j < |xs| :: xs[i] != xs[j]
  }

  function IndexAt(stack: seq<nat>, i: nat): nat {
    if i < |stack| then stack[i] + 1 else 0
  }

  predicate NextOk(next: seq<nat>, stack: seq<nat>, i: nat)
    requires i < |stack|
  {
    stack[i] < |next| && next[stack[i]] == IndexAt(stack, i + 1)
  }

  // The linked nodes spell the stack.
  predicate StackOk(s: State)
    requires Shape(s)
  {
    && Distinct(s.stack)
    && s.top.index == IndexAt(s.stack, 0)
    && (forall i | 0 <= i < |s.stack| :: NextOk(s.next, s.stack, i))
  }

  // A remembered stack word is still the word if its version is current.
  predicate Remembered(s: State, head: Head) {
    head.version <= s.top.version && (head.version == s.top.version ==> head == s.top)
  }

  // idleLinked is true exactly while the node is on the stack, on its way there, or just off it.
  predicate LinkOk(s: State, q: nat)
    requires Shape(s) && q < Workers(s)
  {
    && (s.linked[q] <==> q in s.stack || Pushing(s.pc[q]) || PopUnlink(q) in s.pc)
    && !(q in s.stack && Pushing(s.pc[q]))
    && !(q in s.stack && PopUnlink(q) in s.pc)
    && !(Pushing(s.pc[q]) && PopUnlink(q) in s.pc)
    && (s.pc[q].MarkLinked? ==> !s.linked[q])
    && (s.pc[q].SetNext? ==> Remembered(s, s.pc[q].head))
    && (s.pc[q].PushCas? ==> Remembered(s, s.pc[q].head) && s.next[q] == s.pc[q].head.index)
  }

  predicate PopOk(s: State, a: nat)
    requires Shape(s) && a < |s.pc|
  {
    match s.pc[a]
    case PopNext(head) => Remembered(s, head) && 0 < head.index <= Workers(s)
    case PopCas(head, nxt) =>
      && Remembered(s, head) && 0 < head.index <= Workers(s)
      && (head == s.top ==> nxt == s.next[head.index - 1])
    case PopUnlink(q) =>
      q < Workers(s) && forall b | 0 <= b < |s.pc| && b != a :: s.pc[b] != PopUnlink(q)
    case PopDisarm(q) => q < Workers(s)
    case PopState(q) => q < Workers(s)
    case Notify(q) => q < Workers(s)
    case _ => a < Workers(s) || s.pc[a].Running? || s.pc[a].PopLoad?
  }

  predicate StackInv(s: State)
    requires Shape(s)
  {
    && StackOk(s)
    && (forall q | 0 <= q < Workers(s) :: LinkOk(s, q))
    && (forall a | 0 <= a < |s.pc| :: PopOk(s, a))
  }

  // ---------- the invariant: parked workers ----------

  predicate Registered(p: Pc) {
    p.Recheck? || p.ReadSearching? || p.Asleep?
  }

  predicate Armable(p: Pc) {
    Registered(p) || (RegisterPc(p) && !p.Arm?)
  }

  // PARKED is seen only between the park and the unpark of its owner; an armed, registered node can
  // be popped; a parked worker that lost its arm is about to be looked at and notified.
  predicate ParkOk(s: State, q: nat)
    requires Shape(s) && q < Workers(s)
  {
    && (s.permit[q] == Parked ==> s.pc[q].Arm? || Armable(s.pc[q]) || s.pc[q].Disarm? || s.pc[q].Unpark?)
    && (Armable(s.pc[q]) && s.permit[q] == Parked ==>
          s.armed[q] || PopState(q) in s.pc || Notify(q) in s.pc)
    && (Registered(s.pc[q]) && s.armed[q] ==>
          q in s.stack || PopUnlink(q) in s.pc || PopDisarm(q) in s.pc)
  }

  predicate Counted(p: Pc) {
    p.Hunting? || p.TryPark?
  }

  function Hunters(s: State): set<nat> {
    set w | 0 <= w < |s.pc| && Counted(s.pc[w])
  }

  predicate CountOk(s: State) {
    s.searching == |Hunters(s)|
  }

  // ---------- the invariant: no lost hand-off ----------

  predicate SleepsParked(s: State, q: nat) {
    q < |s.pc| && q < |s.permit| && s.pc[q].Asleep? && s.permit[q] == Parked
  }

  predicate Scanning(p: Pc) {
    PopPc(p) && !p.Notify?
  }

  // Between the decrement that took `searching` to 0 and the notify.
  predicate HandingOff(s: State, a: nat)
    requires Shape(s) && a < |s.pc|
  {
    s.leaver[a] && Scanning(s.pc[a])
  }

  predicate IsParked(s: State, q: nat) {
    q < |s.permit| && s.permit[q] == Parked
  }

  // Between the pop of a parked worker, whose arm it will see or has taken, and the notify.
  predicate HoldsParked(s: State, a: nat)
    requires a < |s.pc|
  {
    match s.pc[a]
    case PopUnlink(q) => IsParked(s, q) && q < |s.armed| && s.armed[q]
    case PopDisarm(q) => IsParked(s, q) && q < |s.armed| && s.armed[q]
    case PopState(q) => IsParked(s, q)
    case Notify(q) => IsParked(s, q)
    case _ => false
  }

  // Awake, and on a path that ends in enterHunt.
  predicate BoundToHunt(s: State, v: nat)
    requires Shape(s) && v < Workers(s)
  {
    var p := s.pc[v];
    || p.ConsumeLate? || p.ToHunt? || p.Disarm? || p.Unpark? || p.UnparkConsume? || p.WakeConsume? || p.WakeDisarm?
    || ((p.Arm? || Armable(p)) && s.permit[v] == Notified)
  }

  predicate SomebodyCovers(s: State)
    requires Shape(s)
  {
    || s.searching > 0
    || (exists a :: 0 <= a < |s.pc| && HandingOff(s, a))
    || (exists a :: 0 <= a < |s.pc| && HoldsParked(s, a))
    || (exists v :: 0 <= v < Workers(s) && BoundToHunt(s, v))
  }

  predicate Covered(s: State)
    requires Shape(s)
  {
    forall q | 0 <= q < Workers(s) && SleepsParked(s, q) :: SomebodyCovers(s)
  }

  predicate Inv(s: State) {
    && Shape(s)
    && StackInv(s)
    && (forall q | 0 <= q < Workers(s) :: ParkOk(s, q))
    && CountOk(s)
    && Covered(s)
    && IdleInv(s)
  }

  // ---------- the invariant: the idle count ----------

  function ArmedWorkers(s: State): set<nat> {
    set q | 0 <= q < |s.armed| && s.armed[q]
  }

  // Armed by RegisterIdleWorker, which has neither pushed the node nor found it linked yet.
  predicate Registering(p: Pc) {
    RegisterPc(p) && !p.Arm?
  }

  function RegisteringWorkers(s: State): set<nat> {
    set w | 0 <= w < |s.pc| && Registering(s.pc[w])
  }

  // An arm is up only between its owner's register and unregister.
  predicate ArmPc(p: Pc) {
    Armable(p) || p.Disarm? || p.WakeConsume? || p.WakeDisarm?
  }

  predicate ArmsOk(s: State)
    requires Shape(s)
  {
    forall q | 0 <= q < Workers(s) && s.armed[q] :: ArmPc(s.pc[q])
  }

  // What idleCount_ will be once every access that is owed to it has been made.
  function Due(s: State): int {
    s.idleCount + s.toAdd - s.toSub
  }

  predicate IdleInv(s: State)
    requires Shape(s)
  {
    ArmsOk(s) && Due(s) == |ArmedWorkers(s)| - s.skipped - |RegisteringWorkers(s)|
  }

  // ---------- program counters ----------

  lemma PcUpdate(pc: seq<Pc>, a: nat, y: Pc)
    requires a < |pc|
    ensures y in pc[a := y]
    ensures forall x | x in pc && x != pc[a] :: x in pc[a := y]
    ensures forall x | x in pc[a := y] && x != y :: x in pc
  {
    assert pc[a := y][a] == y;
    forall x | x in pc && x != pc[a] ensures x in pc[a := y] {
      var i :| 0 <= i < |pc| && pc[i] == x;
      assert pc[a := y][i] == x;
    }
    forall x | x in pc[a := y] && x != y ensures x in pc {
      var i :| 0 <= i < |pc| && pc[a := y][i] == x;
      assert pc[i] == x;
    }
  }

  // ---------- preservation: the idle stack ----------

  // A step of agent a that leaves the stack word, the links and the flags alone.
  lemma StackStill(s: State, s': State, a: nat, y: Pc)
    requires Shape(s) && StackInv(s) && Shape(s') && Workers(s') == Workers(s)
    requires a < |s.pc| && s'.pc == s.pc[a := y]
    requires s'.linked == s.linked && s'.next == s.next && s'.top == s.top && s'.stack == s.stack
    requires !s.pc[a].PopUnlink? && !y.PopUnlink?
    requires a < Workers(s) ==> (Pushing(y) <==> Pushing(s.pc[a])) && LinkOk(s', a)
    requires PopOk(s', a)
    ensures StackInv(s')
  {
    PcUpdate(s.pc, a, y);
    forall q | 0 <= q < Workers(s) ensures LinkOk(s', q) {
      assert LinkOk(s, q);
    }
    forall b | 0 <= b < |s'.pc| ensures PopOk(s', b) {
      assert PopOk(s, b);
    }
  }

  lemma HuntStack(s: State, w: nat, choice: bool)
    requires Shape(s) && StackInv(s) && w < Workers(s)
    requires !PopPc(s.pc[w]) && !RegisterPc(s.pc[w]) && !ParkPc(s.pc[w])
    ensures StackInv(StepHunt(s, w, choice))
  {
    var s' := StepHunt(s, w, choice);
    assert LinkOk(s, w);
    PcUpdate(s.pc, w, s'.pc[w]);
    if s' != s { StackStill(s, s', w, s'.pc[w]); }
  }

  lemma ParkStack(s: State, w: nat, choice: bool)
    requires Shape(s) && StackInv(s) && w < Workers(s) && ParkPc(s.pc[w])
    ensures StackInv(StepPark(s, w, choice))
  {
    var s' := StepPark(s, w, choice);
    assert LinkOk(s, w);
    PcUpdate(s.pc, w, s'.pc[w]);
    if s' != s { StackStill(s, s', w, s'.pc[w]); }
  }

  lemma MarkStack(s: State, w: nat)
    requires Shape(s) && StackInv(s) && w < Workers(s) && s.pc[w].MarkLinked?
    ensures StackInv(StepRegister(s, w, false))
  {
    var s' := StepRegister(s, w, false);
    PcUpdate(s.pc, w, LoadTop);
    forall q | 0 <= q < Workers(s) ensures LinkOk(s', q) { assert LinkOk(s, q); }
    forall b | 0 <= b < |s'.pc| ensures PopOk(s', b) { assert PopOk(s, b); }
  }

  lemma SetNextStack(s: State, w: nat)
    requires Shape(s) && StackInv(s) && w < Workers(s) && s.pc[w].SetNext?
    ensures StackInv(StepRegister(s, w, false))
  {
    var s' := StepRegister(s, w, false);
    PcUpdate(s.pc, w, PushCas(s.pc[w].head));
    assert LinkOk(s, w);
    assert w !in s.stack;
    forall i | 0 <= i < |s.stack| ensures NextOk(s'.next, s.stack, i) { assert NextOk(s.next, s.stack, i) && s.stack[i] in s.stack; }
    forall q | 0 <= q < Workers(s) ensures LinkOk(s', q) { assert LinkOk(s, q); }
    forall b | 0 <= b < |s'.pc| ensures PopOk(s', b) {
      assert PopOk(s, b);
      if s.pc[b].PopCas? && s.pc[b].head == s.top { assert s.stack[0] == s.pc[b].head.index - 1; }
    }
  }

  lemma PushedStackOk(s: State, w: nat)
    requires Shape(s) && StackInv(s) && w < Workers(s) && s.pc[w].PushCas? && s.top == s.pc[w].head
    ensures StackOk(StepRegister(s, w, true)) && w !in s.stack
  {
    var s' := StepRegister(s, w, true);
    assert LinkOk(s, w);
    assert w !in s.stack;
    forall i | 0 <= i < |s'.stack| ensures NextOk(s'.next, s'.stack, i) {
      if i > 0 { assert NextOk(s.next, s.stack, i - 1); assert s'.stack[i] == s.stack[i - 1] && IndexAt(s'.stack, i + 1) == IndexAt(s.stack, i); }
    }
  }

  lemma PushStackLinks(s: State, w: nat, q: nat)
    requires Shape(s) && StackInv(s) && w < Workers(s) && s.pc[w].PushCas? && s.top == s.pc[w].head
    requires q < Workers(s)
    ensures LinkOk(StepRegister(s, w, true), q)
  {
    var s' := StepRegister(s, w, true);
    PcUpdate(s.pc, w, Recheck);
    PushedStackOk(s, w);
    assert q in s'.stack <==> q == w || q in s.stack;
    assert LinkOk(s, q);
    assert PopUnlink(q) in s'.pc <==> PopUnlink(q) in s.pc;
  }

  lemma PushStack(s: State, w: nat)
    requires Shape(s) && StackInv(s) && w < Workers(s) && s.pc[w].PushCas? && s.top == s.pc[w].head
    ensures StackInv(StepRegister(s, w, true))
  {
    var s' := StepRegister(s, w, true);
    PushedStackOk(s, w);
    forall q | 0 <= q < Workers(s) ensures LinkOk(s', q) { PushStackLinks(s, w, q); }
    forall b | 0 <= b < |s'.pc| ensures PopOk(s', b) { assert PopOk(s, b); }
  }

  lemma RegisterStack(s: State, w: nat, choice: bool)
    requires Shape(s) && StackInv(s) && w < Workers(s) && RegisterPc(s.pc[w])
    ensures StackInv(StepRegister(s, w, choice))
  {
    var s' := StepRegister(s, w, choice);
    assert LinkOk(s, w);
    PcUpdate(s.pc, w, s'.pc[w]);
    if s.pc[w].MarkLinked? { MarkStack(s, w); }
    else if s.pc[w].SetNext? { SetNextStack(s, w); }
    else if s.pc[w].PushCas? && choice && s.top == s.pc[w].head { PushStack(s, w); }
    else { StackStill(s, s', w, s'.pc[w]); }
  }

  // A good stack without its top is good.
  lemma TailOk(next: seq<nat>, stack: seq<nat>, rest: seq<nat>)
    requires stack != [] && rest == stack[1..] && Distinct(stack)
    requires forall i | 0 <= i < |stack| :: NextOk(next, stack, i)
    ensures Distinct(rest) && stack[0] !in rest && NextOk(next, stack, 0) && next[stack[0]] == IndexAt(rest, 0)
    ensures forall i | 0 <= i < |rest| :: NextOk(next, rest, i)
    ensures forall q :: q in stack <==> q == stack[0] || q in rest
  {
    assert stack == [stack[0]] + rest;
    assert NextOk(next, stack, 0);
    forall i | 0 <= i < |rest| ensures NextOk(next, rest, i) {
      assert NextOk(next, stack, i + 1) && rest[i] == stack[i + 1] && IndexAt(rest, i + 1) == IndexAt(stack, i + 2);
    }
  }

  lemma PoppedStackOk(s: State, a: nat)
    requires Shape(s) && StackInv(s) && a < |s.pc| && s.pc[a].PopCas? && s.top == s.pc[a].head
    ensures var s' := StepPop(s, a, true);
            && s.stack != [] && s'.stack == s.stack[1..] && s'.pc[a] == PopUnlink(s.stack[0])
            && StackOk(s')
            && (forall q :: q in s.stack <==> q == s.stack[0] || q in s'.stack)
            && s.stack[0] !in s'.stack
  {
    assert PopOk(s, a) && StackOk(s);
    TailOk(s.next, s.stack, s.stack[1..]);
  }

  lemma PopCasStack(s: State, a: nat)
    requires Shape(s) && StackInv(s) && a < |s.pc| && s.pc[a].PopCas? && s.top == s.pc[a].head
    ensures StackInv(StepPop(s, a, true))
  {
    var s' := StepPop(s, a, true);
    PoppedStackOk(s, a);
    PcUpdate(s.pc, a, PopUnlink(s.stack[0]));
    assert NextOk(s.next, s.stack, 0) && LinkOk(s, s.stack[0]);
    forall q | 0 <= q < Workers(s) ensures LinkOk(s', q) { assert LinkOk(s, q); }
    forall b | 0 <= b < |s'.pc| ensures PopOk(s', b) { assert PopOk(s, b); }
  }

  lemma PopUnlinkStack(s: State, a: nat)
    requires Shape(s) && StackInv(s) && a < |s.pc| && s.pc[a].PopUnlink?
    ensures StackInv(StepPop(s, a, false))
  {
    assert PopOk(s, a);
    var q0 := s.pc[a].q;
    var s' := StepPop(s, a, false);
    PcUpdate(s.pc, a, PopDisarm(q0));
    assert PopUnlink(q0) in s.pc;
    assert forall b | 0 <= b < |s'.pc| :: s'.pc[b] != PopUnlink(q0);
    forall q | 0 <= q < Workers(s) ensures LinkOk(s', q) { assert LinkOk(s, q); }
    forall b | 0 <= b < |s'.pc| ensures PopOk(s', b) { assert PopOk(s, b); }
  }

  lemma PopStack(s: State, a: nat, choice: bool)
    requires Shape(s) && StackInv(s) && a < |s.pc| && PopPc(s.pc[a])
    ensures StackInv(StepPop(s, a, choice))
  {
    var s' := StepPop(s, a, choice);
    assert PopOk(s, a);
    if s.pc[a].PopCas? && choice && s.top == s.pc[a].head { PopCasStack(s, a); }
    else if s.pc[a].PopUnlink? { PopUnlinkStack(s, a); }
    else if s' != s {
      PcUpdate(s.pc, a, s'.pc[a]);
      if a < Workers(s) { assert LinkOk(s, a); }
      StackStill(s, s', a, s'.pc[a]);
    }
  }

  // Neither the stack nor any program counter changes.
  lemma AsideStack(s: State, s': State)
    requires Shape(s) && StackInv(s) && Shape(s') && Workers(s') == Workers(s)
    requires s'.pc == s.pc && s'.linked == s.linked && s'.next == s.next && s'.top == s.top && s'.stack == s.stack
    ensures StackInv(s')
  {
    forall w | 0 <= w < Workers(s) ensures LinkOk(s', w) { assert LinkOk(s, w); }
    forall b | 0 <= b < |s'.pc| ensures PopOk(s', b) { assert PopOk(s, b); }
  }

  lemma StepStack(s: State, e: Event)
    requires Shape(s) && StackInv(s)
    ensures StackInv(Step(s, e))
  {
    match e
    case AgentStep(a, choice) =>
      if a < |s.pc| {
        if PopPc(s.pc[a]) { PopStack(s, a, choice); }
        else if a < Workers(s) {
          if s.pc[a].Running? {
            assert LinkOk(s, a);
            PcUpdate(s.pc, a, ToHunt);
            StackStill(s, Step(s, e), a, ToHunt);
          } else if RegisterPc(s.pc[a]) { RegisterStack(s, a, choice); }
          else if ParkPc(s.pc[a]) { ParkStack(s, a, choice); }
          else { HuntStack(s, a, choice); }
        }
      }
    case PlaceWork(a) =>
      if a < |s.pc| && s.pc[a].Running? {
        if a < Workers(s) { assert LinkOk(s, a); }
        PcUpdate(s.pc, a, PopLoad);
        StackStill(s, Step(s, e), a, PopLoad);
      }
    case _ => AsideStack(s, Step(s, e));
  }

  // ---------- preservation: parked workers ----------

  predicate ParkInv(s: State)
    requires Shape(s)
  {
    forall q | 0 <= q < Workers(s) :: ParkOk(s, q)
  }

  // A step of agent a keeps the facts about worker q unless it lets go of q.
  lemma ParkKept(s: State, s': State, a: nat, y: Pc, q: nat)
    requires Shape(s) && Shape(s') && Workers(s') == Workers(s) && q < Workers(s) && ParkOk(s, q)
    requires a < |s.pc| && a != q && s'.pc == s.pc[a := y]
    requires s'.permit[q] == s.permit[q] && s'.armed[q] == s.armed[q]
    requires q in s.stack ==> q in s'.stack
    requires s.pc[a] !in {PopUnlink(q), PopDisarm(q), PopState(q), Notify(q)}
    ensures ParkOk(s', q)
  {
    PcUpdate(s.pc, a, y);
  }

  // A worker's own step that touches only its own words.
  lemma OwnPark(s: State, s': State, w: nat, y: Pc)
    requires Shape(s) && ParkInv(s) && Shape(s') && Workers(s') == Workers(s) && w < Workers(s)
    requires s'.pc == s.pc[w := y] && !PopPc(s.pc[w])
    requires forall q | 0 <= q < Workers(s) && q != w ::
               s'.permit[q] == s.permit[q] && s'.armed[q] == s.armed[q]
    requires forall q | q in s.stack :: q in s'.stack
    requires ParkOk(s', w)
    ensures ParkInv(s')
  {
    forall q | 0 <= q < Workers(s) ensures ParkOk(s', q) {
      if q != w { ParkKept(s, s', w, y, q); }
    }
  }

  lemma HuntParkOk(s: State, w: nat, choice: bool)
    requires Shape(s) && ParkInv(s) && w < Workers(s)
    requires !PopPc(s.pc[w]) && !RegisterPc(s.pc[w]) && !ParkPc(s.pc[w])
    ensures ParkInv(StepHunt(s, w, choice))
  {
    var s' := StepHunt(s, w, choice);
    assert ParkOk(s, w);
    if s' != s { OwnPark(s, s', w, s'.pc[w]); }
  }

  lemma RegisterParkOk(s: State, w: nat, choice: bool)
    requires Shape(s) && StackInv(s) && ParkInv(s) && w < Workers(s) && RegisterPc(s.pc[w])
    ensures ParkInv(StepRegister(s, w, choice))
  {
    var s' := StepRegister(s, w, choice);
    assert ParkOk(s, w) && LinkOk(s, w);
    PcUpdate(s.pc, w, s'.pc[w]);
    forall q | q in s.stack ensures q in s'.stack {}
    OwnPark(s, s', w, s'.pc[w]);
  }

  lemma ParkParkOk(s: State, w: nat, choice: bool)
    requires Shape(s) && ParkInv(s) && w < Workers(s) && ParkPc(s.pc[w])
    ensures ParkInv(StepPark(s, w, choice))
  {
    var s' := StepPark(s, w, choice);
    assert ParkOk(s, w);
    PcUpdate(s.pc, w, s'.pc[w]);
    if s' != s { OwnPark(s, s', w, s'.pc[w]); }
  }

  // A popper's own word is untouched by what it does to others: it is neither parked nor armed there.
  lemma PopperParkOk(s: State, s': State, a: nat, y: Pc)
    requires Shape(s) && Shape(s') && Workers(s') == Workers(s) && a < Workers(s) && ParkOk(s, a)
    requires PopPc(s.pc[a]) || s.pc[a].Running?
    requires s'.pc == s.pc[a := y] && (PopPc(y) || y.Running? || y.ToHunt?)
    requires s'.permit[a] == s.permit[a] || s'.permit[a] == Notified
    ensures ParkOk(s', a)
  {}

  lemma PopParkOk(s: State, a: nat, choice: bool)
    requires Shape(s) && StackInv(s) && ParkInv(s) && a < |s.pc| && PopPc(s.pc[a])
    ensures ParkInv(StepPop(s, a, choice))
  {
    var s' := StepPop(s, a, choice);
    assert PopOk(s, a);
    if s' == s { return; }
    var y := s'.pc[a];
    PcUpdate(s.pc, a, y);
    if s.pc[a].PopCas? && choice && s.top == s.pc[a].head { PoppedStackOk(s, a); }
    forall q | 0 <= q < Workers(s) ensures ParkOk(s', q) {
      assert ParkOk(s, q);
      if q == a { PopperParkOk(s, s', a, y); }
      else if s.pc[a] in {PopUnlink(q), PopDisarm(q), PopState(q), Notify(q)} { PopTargetOk(s, a, q, choice); }
      else if y == PopUnlink(q) {}
      else { ParkKept(s, s', a, y, q); }
    }
  }

  // What a popper does to the worker in its hands.
  lemma PopTargetOk(s: State, a: nat, q: nat, choice: bool)
    requires Shape(s) && a < |s.pc| && q < Workers(s) && q != a && ParkOk(s, q)
    requires s.pc[a] in {PopUnlink(q), PopDisarm(q), PopState(q), Notify(q)}
    ensures ParkOk(StepPop(s, a, choice), q)
  {
    PcUpdate(s.pc, a, StepPop(s, a, choice).pc[a]);
  }

  lemma StepParked(s: State, e: Event)
    requires Shape(s) && StackInv(s) && ParkInv(s)
    ensures ParkInv(Step(s, e))
  {
    var s' := Step(s, e);
    match e
    case AgentStep(a, choice) =>
      if a < |s.pc| {
        if PopPc(s.pc[a]) { PopParkOk(s, a, choice); }
        else if a < Workers(s) {
          if s.pc[a].Running? {
            assert ParkOk(s, a);
            OwnPark(s, s', a, ToHunt);
          } else if RegisterPc(s.pc[a]) { RegisterParkOk(s, a, choice); }
          else if ParkPc(s.pc[a]) { ParkParkOk(s, a, choice); }
          else { HuntParkOk(s, a, choice); }
        }
      }
    case PlaceWork(a) =>
      if a < |s.pc| && s.pc[a].Running? {
        forall q | 0 <= q < Workers(s) ensures ParkOk(s', q) {
          assert ParkOk(s, q);
          if q == a { PopperParkOk(s, s', a, PopLoad); } else { ParkKept(s, s', a, PopLoad, q); }
        }
      }
    case _ =>
      forall w | 0 <= w < Workers(s) ensures ParkOk(s', w) { assert ParkOk(s, w); }
  }

  // ---------- preservation: the counter ----------

  function One(b: bool): nat {
    if b then 1 else 0
  }

  lemma SizeSwap(x: set<nat>, y: set<nat>, a: nat)
    requires x - {a} == y - {a}
    ensures |y| == |x| - One(a in x) + One(a in y)
  {
    assert a in x ==> x == (x - {a}) + {a};
    assert a in y ==> y == (y - {a}) + {a};
    assert a !in x ==> x == x - {a};
    assert a !in y ==> y == y - {a};
  }

  // Agent a moves to p, and the counter follows.
  lemma CountMove(s: State, s': State, a: nat, p: Pc)
    requires CountOk(s) && a < |s.pc| && s'.pc == s.pc[a := p]
    requires s'.searching + One(Counted(s.pc[a])) == s.searching + One(Counted(p))
    ensures CountOk(s')
  {
    SizeSwap(Hunters(s), Hunters(s'), a);
  }

  lemma HuntCount(s: State, w: nat, choice: bool)
    requires Shape(s) && CountOk(s) && w < Workers(s)
    ensures CountOk(StepHunt(s, w, choice))
  {
    var s' := StepHunt(s, w, choice);
    assert s'.pc == s.pc[w := s'.pc[w]];
    CountMove(s, s', w, s'.pc[w]);
  }

  lemma RegisterCount(s: State, w: nat, choice: bool)
    requires Shape(s) && CountOk(s) && w < Workers(s) && RegisterPc(s.pc[w])
    ensures CountOk(StepRegister(s, w, choice))
  {
    CountMove(s, StepRegister(s, w, choice), w, StepRegister(s, w, choice).pc[w]);
  }

  lemma ParkCount(s: State, w: nat, choice: bool)
    requires Shape(s) && CountOk(s) && w < Workers(s) && ParkPc(s.pc[w])
    ensures CountOk(StepPark(s, w, choice))
  {
    var s' := StepPark(s, w, choice);
    assert s'.pc == s.pc[w := s'.pc[w]];
    CountMove(s, s', w, s'.pc[w]);
  }

  lemma PopCount(s: State, a: nat, choice: bool)
    requires Shape(s) && CountOk(s) && a < |s.pc| && PopPc(s.pc[a])
    ensures CountOk(StepPop(s, a, choice))
  {
    var s' := StepPop(s, a, choice);
    assert s'.pc == s.pc[a := s'.pc[a]];
    CountMove(s, s', a, s'.pc[a]);
  }

  // `searching` is the number of workers in the find loop.
  lemma StepCount(s: State, e: Event)
    requires Shape(s) && CountOk(s)
    ensures CountOk(Step(s, e))
  {
    match e
    case AgentStep(a, choice) =>
      if a < |s.pc| {
        if PopPc(s.pc[a]) { PopCount(s, a, choice); }
        else if a < Workers(s) {
          if s.pc[a].Running? { CountMove(s, Step(s, e), a, ToHunt); }
          else if RegisterPc(s.pc[a]) { RegisterCount(s, a, choice); }
          else if ParkPc(s.pc[a]) { ParkCount(s, a, choice); }
          else { HuntCount(s, a, choice); }
        }
      }
    case PlaceWork(a) =>
      if a < |s.pc| && s.pc[a].Running? { CountMove(s, Step(s, e), a, PopLoad); }
    case _ => assert Hunters(Step(s, e)) == Hunters(s);
  }

  // ---------- preservation: no lost hand-off ----------

  // The agent whose program counter an event moves, if any.
  predicate Moves(s: State, e: Event, a: nat) {
    Acts(e) && e.a == a
  }

  // A permit changes only by its owner's step or to NOTIFIED.
  lemma OthersKeepPermit(s: State, e: Event, v: nat)
    requires Shape(s) && v < Workers(s) && !Moves(s, e, v)
    ensures Workers(Step(s, e)) == Workers(s)
    ensures Step(s, e).permit[v] == s.permit[v] || Step(s, e).permit[v] == Notified
  {
    if e.AgentStep? && e.a < |s.pc| {
      if PopPc(s.pc[e.a]) { PopKeepsPermit(s, e.a, e.choice, v); }
      else if e.a < Workers(s) { OwnKeepsPermit(s, e.a, e.choice, v); }
    }
  }

  lemma PopKeepsPermit(s: State, a: nat, choice: bool, v: nat)
    requires Shape(s) && v < Workers(s) && a < |s.pc|
    ensures StepPop(s, a, choice).permit[v] == s.permit[v] || StepPop(s, a, choice).permit[v] == Notified
  {
  }

  lemma OwnKeepsPermit(s: State, w: nat, choice: bool, v: nat)
    requires Shape(s) && v < Workers(s) && w < Workers(s) && v != w
    ensures StepHunt(s, w, choice).permit[v] == s.permit[v]
    ensures StepRegister(s, w, choice).permit[v] == s.permit[v]
    ensures StepPark(s, w, choice).permit[v] == s.permit[v]
  {
  }

  lemma HuntCoverKept(s: State, e: Event)
    requires Shape(s) && s.searching > 0
    ensures SomebodyCovers(Step(s, e))
  {
    var s' := Step(s, e);
    if s'.searching == 0 {
      assert s.pc[e.a].Hunting? && s'.pc[e.a].PopLoad? && s'.leaver[e.a];
      assert HandingOff(s', e.a);
    }
  }

  lemma BoundCoverKept(s: State, e: Event, v: nat)
    requires Shape(s) && v < Workers(s) && BoundToHunt(s, v)
    ensures SomebodyCovers(Step(s, e))
  {
    var s' := Step(s, e);
    if Moves(s, e, v) { BoundMoves(s, e, v); }
    else {
      OthersKeepPermit(s, e, v);
      assert BoundToHunt(s', v);
    }
  }

  lemma BoundMoves(s: State, e: Event, v: nat)
    requires Shape(s) && v < Workers(s) && BoundToHunt(s, v) && Moves(s, e, v)
    ensures Step(s, e).searching > 0 || BoundToHunt(Step(s, e), v)
  {
    if e.PlaceWork? { assert Step(s, e) == s; }
    else if ParkPc(s.pc[v]) { BoundParks(s, v, e.choice); }
    else if RegisterPc(s.pc[v]) { BoundRegisters(s, v, e.choice); }
    else { BoundHunts(s, v, e.choice); }
  }

  lemma BoundHunts(s: State, v: nat, choice: bool)
    requires Shape(s) && v < Workers(s) && BoundToHunt(s, v) && !ParkPc(s.pc[v]) && !RegisterPc(s.pc[v])
    ensures StepHunt(s, v, choice).searching > 0 || BoundToHunt(StepHunt(s, v, choice), v)
  {
  }

  lemma BoundRegisters(s: State, v: nat, choice: bool)
    requires Shape(s) && v < Workers(s) && BoundToHunt(s, v) && RegisterPc(s.pc[v])
    ensures BoundToHunt(StepRegister(s, v, choice), v)
  {
  }

  lemma BoundParks(s: State, v: nat, choice: bool)
    requires Shape(s) && v < Workers(s) && BoundToHunt(s, v) && ParkPc(s.pc[v])
    ensures BoundToHunt(StepPark(s, v, choice), v)
  {
  }

  // A parked worker that stops being parked, or disarms itself, is awake and will hunt.
  lemma UnparkedIsBound(s: State, e: Event, q: nat)
    requires Shape(s) && q < Workers(s) && ParkOk(s, q) && s.permit[q] == Parked
    ensures Step(s, e).permit[q] != Parked ==> BoundToHunt(Step(s, e), q)
    ensures Moves(s, e, q) && s.armed[q] && !Step(s, e).armed[q] ==> BoundToHunt(Step(s, e), q)
  {
    if !Moves(s, e, q) { OthersKeepPermit(s, e, q); }
    else if e.AgentStep? { OwnUnpark(s, q, e.choice); }
  }

  lemma OwnUnpark(s: State, q: nat, choice: bool)
    requires Shape(s) && q < Workers(s) && ParkOk(s, q) && s.permit[q] == Parked
    ensures var s' := Step(s, AgentStep(q, choice));
            (s'.permit[q] != Parked || (s.armed[q] && !s'.armed[q])) ==> BoundToHunt(s', q)
  {
    if RegisterPc(s.pc[q]) { assert StepRegister(s, q, choice).permit == s.permit; }
  }

  // Another agent's arm is taken only by a popper that goes on to look at the worker.
  lemma ArmTakenByPopper(s: State, e: Event, q: nat)
    requires Shape(s) && q < Workers(s) && !Moves(s, e, q) && s.armed[q] && !Step(s, e).armed[q]
    ensures e.AgentStep? && e.a < |s.pc| && s.pc[e.a] == PopDisarm(q) && Step(s, e).pc[e.a] == PopState(q)
  {
    if e.AgentStep? && e.a < |s.pc| && !PopPc(s.pc[e.a]) && e.a < Workers(s) {
      OwnKeepsArms(s, e.a, e.choice, q);
    }
  }

  lemma OwnKeepsArms(s: State, w: nat, choice: bool, v: nat)
    requires Shape(s) && v < Workers(s) && w < Workers(s) && v != w
    ensures StepHunt(s, w, choice).armed[v] == s.armed[v]
    ensures StepRegister(s, w, choice).armed[v] == s.armed[v]
    ensures StepPark(s, w, choice).armed[v] == s.armed[v]
  {
  }

  // The worker that a popper holds.
  function HeldBy(p: Pc): nat
    requires p.PopUnlink? || p.PopDisarm? || p.PopState? || p.Notify?
  {
    p.q
  }

  // A popper with a parked worker in its hands goes on to wake it, unless somebody else does.
  lemma HoldCoverKept(s: State, e: Event, a: nat)
    requires Shape(s) && ParkInv(s) && a < |s.pc| && HoldsParked(s, a)
    ensures SomebodyCovers(Step(s, e))
  {
    var s' := Step(s, e);
    var q := HeldBy(s.pc[a]);
    assert ParkOk(s, q);
    UnparkedIsBound(s, e, q);
    if s'.permit[q] != Parked { assert BoundToHunt(s', q); }
    else if Moves(s, e, a) { HolderMoves(s, e, a, q); }
    else if s.armed[q] && !s'.armed[q] {
      if Moves(s, e, q) { assert BoundToHunt(s', q); }
      else {
        ArmTakenByPopper(s, e, q);
        assert HoldsParked(s', e.a);
      }
    } else {
      assert HoldsParked(s', a);
    }
  }

  lemma HolderMoves(s: State, e: Event, a: nat, q: nat)
    requires Shape(s) && a < |s.pc| && HoldsParked(s, a) && HeldBy(s.pc[a]) == q && Moves(s, e, a)
    requires Step(s, e).permit[q] == Parked
    ensures HoldsParked(Step(s, e), a)
  {
  }

  // A popper that finds the stack empty leaves no sleeper behind: every one is in another's hands.
  lemma EmptyStackCover(s: State, a: nat, w: nat)
    requires Inv(s) && a < |s.pc| && s.pc[a].PopLoad? && s.top.index == 0
    requires w < Workers(s) && SleepsParked(s, w)
    ensures exists b :: 0 <= b < |s.pc| && b != a && HoldsParked(s, b) && HeldBy(s.pc[b]) == w
  {
    assert ParkOk(s, w);
    assert s.stack == [];
    var p :| (if s.armed[w] then p in {PopUnlink(w), PopDisarm(w)} else p in {PopState(w), Notify(w)}) && p in s.pc;
    var b :| 0 <= b < |s.pc| && s.pc[b] == p;
    assert HoldsParked(s, b);
  }

  lemma HandOffKept(s: State, e: Event, a: nat, w: nat)
    requires Inv(s) && a < |s.pc| && HandingOff(s, a) && w < Workers(s) && SleepsParked(s, w)
    ensures SomebodyCovers(Step(s, e))
  {
    var s' := Step(s, e);
    if Moves(s, e, a) { HandOffMoves(s, e, a, w); }
    else {
      LeaverKept(s, e, a);
      assert HandingOff(s', a);
    }
  }

  lemma LeaverKept(s: State, e: Event, a: nat)
    requires Shape(s) && a < |s.pc| && (!Moves(s, e, a) || PopPc(s.pc[a]))
    ensures Step(s, e).leaver[a] == s.leaver[a]
  {
    if e.AgentStep? && e.a < |s.pc| {
      if PopPc(s.pc[e.a]) { PopKeepsLeavers(s, e.a, e.choice); }
      else if e.a < Workers(s) { OwnKeepsLeavers(s, e.a, e.choice, a); }
    }
  }

  lemma PopKeepsLeavers(s: State, a: nat, choice: bool)
    requires Shape(s) && a < |s.pc|
    ensures StepPop(s, a, choice).leaver == s.leaver
  {
  }

  lemma OwnKeepsLeavers(s: State, w: nat, choice: bool, a: nat)
    requires Shape(s) && w < Workers(s) && a < |s.pc| && a != w
    ensures StepHunt(s, w, choice).leaver[a] == s.leaver[a]
    ensures StepRegister(s, w, choice).leaver == s.leaver
    ensures StepPark(s, w, choice).leaver == s.leaver
  {
  }

  lemma HandOffMoves(s: State, e: Event, a: nat, w: nat)
    requires Inv(s) && a < |s.pc| && HandingOff(s, a) && w < Workers(s) && SleepsParked(s, w) && Moves(s, e, a)
    ensures SomebodyCovers(Step(s, e))
  {
    var s' := Step(s, e);
    LeaverKept(s, e, a);
    assert PopOk(s, a);
    if s.pc[a].PopLoad? && e.AgentStep? && s.top.index == 0 {
      EmptyStackCover(s, a, w);
      var b :| 0 <= b < |s.pc| && b != a && HoldsParked(s, b);
      assert s' == Goto(s, a, Running) && HoldsParked(s', b);
    } else if s.pc[a].PopLoad? {
      assert s.top.index <= Workers(s) by {
        if s.stack != [] { assert NextOk(s.next, s.stack, 0); }
      }
      assert HandingOff(s', a);
    } else {
      assert HandingOff(s', a) || HoldsParked(s', a);
    }
  }

  // Only the park path leads to sleep.
  lemma SleepComesFromPark(s: State, e: Event, q: nat)
    requires Shape(s) && q < Workers(s) && Moves(s, e, q) && Step(s, e).pc[q].Asleep?
    ensures (e.AgentStep? && s.pc[q].ReadSearching?) || (s.pc[q].Asleep? && Step(s, e) == s)
  {
    if e.AgentStep? {
      NoSleepElsewhere(s, q, e.choice);
      if ParkPc(s.pc[q]) { ParkSleeps(s, q, e.choice); }
    }
  }

  lemma NoSleepElsewhere(s: State, w: nat, choice: bool)
    requires Shape(s) && w < Workers(s)
    ensures !ParkPc(s.pc[w]) ==> !StepHunt(s, w, choice).pc[w].Asleep? && !StepRegister(s, w, choice).pc[w].Asleep?
                                 && !StepPop(s, w, choice).pc[w].Asleep?
  {
  }

  lemma ParkSleeps(s: State, w: nat, choice: bool)
    requires Shape(s) && w < Workers(s) && ParkPc(s.pc[w])
    ensures StepPark(s, w, choice).pc[w].Asleep? ==>
              s.pc[w].ReadSearching? || (s.pc[w].Asleep? && StepPark(s, w, choice) == s)
  {
  }

  // A worker falls asleep only by reading `searching` and finding a hunter.
  lemma NewSleeper(s: State, e: Event, q: nat)
    requires Shape(s) && q < Workers(s) && SleepsParked(Step(s, e), q) && !SleepsParked(s, q)
    ensures Step(s, e).searching > 0
  {
    if Moves(s, e, q) {
      SleepComesFromPark(s, e, q);
    } else {
      OthersKeepPermit(s, e, q);
      assert false;
    }
  }

  lemma StepCovered(s: State, e: Event)
    requires Inv(s)
    ensures Covered(Step(s, e))
  {
    var s' := Step(s, e);
    forall q | 0 <= q < Workers(s') && SleepsParked(s', q) ensures SomebodyCovers(s') {
      if !SleepsParked(s, q) {
        NewSleeper(s, e, q);
      } else if s.searching > 0 {
        HuntCoverKept(s, e);
      } else if a :| 0 <= a < |s.pc| && HandingOff(s, a) {
        HandOffKept(s, e, a, q);
      } else if a :| 0 <= a < |s.pc| && HoldsParked(s, a) {
        HoldCoverKept(s, e, a);
      } else {
        var v :| 0 <= v < Workers(s) && BoundToHunt(s, v);
        BoundCoverKept(s, e, v);
      }
    }
  }

  // ---------- preservation: the idle count ----------

  lemma RegisteringUpdate(s: State, s': State, a: nat, p: Pc)
    requires a < |s.pc| && s'.pc == s.pc[a := p]
    ensures |RegisteringWorkers(s')| == |RegisteringWorkers(s)| - One(Registering(s.pc[a])) + One(Registering(p))
  {
    SizeSwap(RegisteringWorkers(s), RegisteringWorkers(s'), a);
  }

  lemma ArmedUpdate(s: State, s': State, q: nat, v: bool)
    requires q < |s.armed| && s'.armed == s.armed[q := v]
    ensures |ArmedWorkers(s')| == |ArmedWorkers(s)| - One(s.armed[q]) + One(v)
  {
    SizeSwap(ArmedWorkers(s), ArmedWorkers(s'), q);
  }

  // Agent a moves to p, and no arm changes.
  lemma IdleMove(s: State, s': State, a: nat, p: Pc)
    requires Shape(s) && IdleInv(s) && Shape(s') && a < |s.pc| && s'.pc == s.pc[a := p] && s'.armed == s.armed
    requires Due(s') + s'.skipped + One(Registering(p)) == Due(s) + s.skipped + One(Registering(s.pc[a]))
    requires a < Workers(s) && s.armed[a] ==> ArmPc(p)
    ensures IdleInv(s')
  {
    RegisteringUpdate(s, s', a, p);
    assert ArmedWorkers(s') == ArmedWorkers(s);
  }

  // Agent a moves to p, and the arm of worker q is set or taken.
  lemma IdleArm(s: State, s': State, a: nat, p: Pc, q: nat, v: bool)
    requires Shape(s) && IdleInv(s) && Shape(s') && a < |s.pc| && s'.pc == s.pc[a := p]
    requires q < Workers(s) && s'.armed == s.armed[q := v] && (v ==> a == q)
    requires Due(s') + s'.skipped + One(Registering(p)) - One(v) ==
             Due(s) + s.skipped + One(Registering(s.pc[a])) - One(s.armed[q])
    requires a < Workers(s) && s'.armed[a] ==> ArmPc(p)
    ensures IdleInv(s')
  {
    RegisteringUpdate(s, s', a, p);
    ArmedUpdate(s, s', q, v);
  }

  lemma HuntIdle(s: State, w: nat, choice: bool)
    requires Shape(s) && IdleInv(s) && w < Workers(s) && !PopPc(s.pc[w]) && !RegisterPc(s.pc[w]) && !ParkPc(s.pc[w])
    ensures IdleInv(StepHunt(s, w, choice))
  {
    var s' := StepHunt(s, w, choice);
    assert s'.pc == s.pc[w := s'.pc[w]];
    IdleMove(s, s', w, s'.pc[w]);
  }

  lemma RegisterIdle(s: State, w: nat, choice: bool)
    requires Shape(s) && IdleInv(s) && w < Workers(s) && RegisterPc(s.pc[w])
    ensures IdleInv(StepRegister(s, w, choice))
  {
    var s' := StepRegister(s, w, choice);
    if s.pc[w].Arm? { IdleArm(s, s', w, CheckLinked, w, true); } else { IdleMove(s, s', w, s'.pc[w]); }
  }

  lemma ParkIdle(s: State, w: nat, choice: bool)
    requires Shape(s) && IdleInv(s) && w < Workers(s) && ParkPc(s.pc[w])
    ensures IdleInv(StepPark(s, w, choice))
  {
    var s' := StepPark(s, w, choice);
    assert s'.pc == s.pc[w := s'.pc[w]];
    if s.pc[w].Disarm? || s.pc[w].WakeDisarm? { IdleArm(s, s', w, s'.pc[w], w, false); }
    else { IdleMove(s, s', w, s'.pc[w]); }
  }

  lemma PopIdle(s: State, a: nat, choice: bool)
    requires Shape(s) && IdleInv(s) && a < |s.pc| && PopPc(s.pc[a])
    ensures IdleInv(StepPop(s, a, choice))
  {
    var s' := StepPop(s, a, choice);
    assert s'.pc == s.pc[a := s'.pc[a]];
    if s.pc[a].PopDisarm? && s.pc[a].q < Workers(s) { IdleArm(s, s', a, s'.pc[a], s.pc[a].q, false); }
    else { IdleMove(s, s', a, s'.pc[a]); }
  }

  lemma StepIdle(s: State, e: Event)
    requires Shape(s) && IdleInv(s)
    ensures IdleInv(Step(s, e))
  {
    match e
    case AgentStep(a, choice) =>
      if a < |s.pc| {
        if PopPc(s.pc[a]) { PopIdle(s, a, choice); }
        else if a < Workers(s) {
          if s.pc[a].Running? { IdleMove(s, Step(s, e), a, ToHunt); }
          else if RegisterPc(s.pc[a]) { RegisterIdle(s, a, choice); }
          else if ParkPc(s.pc[a]) { ParkIdle(s, a, choice); }
          else { HuntIdle(s, a, choice); }
        }
      }
    case PlaceWork(a) =>
      if a < |s.pc| && s.pc[a].Running? { IdleMove(s, Step(s, e), a, PopLoad); }
    case _ =>
      var s' := Step(s, e);
      assert ArmedWorkers(s') == ArmedWorkers(s) && RegisteringWorkers(s') == RegisteringWorkers(s);
  }

  // ---------- whole runs ----------

  /** Every step of every agent keeps the invariant. */
  lemma StepInv(s: State, e: Event)
    requires Inv(s)
    ensures Inv(Step(s, e))
  {
    StepStack(s, e);
    StepParked(s, e);
    StepCount(s, e);
    StepCovered(s, e);
    StepIdle(s, e);
  }

  lemma {:induction false} PrefixSize(pc: seq<Pc>, n: nat)
    requires n <= |pc| && forall i | 0 <= i < n :: Counted(pc[i])
    ensures |set w | 0 <= w < n && Counted(pc[w])| == n
  {
    if n > 0 {
      PrefixSize(pc, n - 1);
      assert (set w | 0 <= w < n && Counted(pc[w])) == (set w | 0 <= w < n - 1 && Counted(pc[w])) + {n - 1};
    }
  }

  lemma InitInv(workers: nat, outside: nat)
    ensures Inv(Init(workers, outside))
  {
    var s := Init(workers, outside);
    assert Hunters(s) == set w | 0 <= w < workers && Counted(s.pc[w]);
    PrefixSize(s.pc, workers);
    assert ArmedWorkers(s) == {} && RegisteringWorkers(s) == {};
  }

  lemma {:induction false} RunInv(workers: nat, outside: nat, events: seq<Event>)
    ensures Inv(Run(Init(workers, outside), events))
  {
    if events == [] { InitInv(workers, outside); }
    else {
      RunInv(workers, outside, events[..|events| - 1]);
      StepInv(Run(Init(workers, outside), events[..|events| - 1]), events[|events| - 1]);
    }
  }

  /** No lost hand-off: in every reachable state with a worker blocked on PARKED, somebody is in the
      find loop, or a leaver is between the decrement that took `searching` to 0 and its notify, or a
      popper is between its pop of a parked worker and its notify, or a worker is awake and on its
      way into the hunt.  A popper that has decremented nothing and popped nobody is no cover. */
  lemma NoLostHandOff(workers: nat, outside: nat, events: seq<Event>, s: State, q: nat)
    requires s == Run(Init(workers, outside), events) && SleepsParked(s, q)
    ensures || Hunters(s) != {}
            || (exists a :: 0 <= a < |s.pc| && (HandingOff(s, a) || HoldsParked(s, a)))
            || (exists v :: 0 <= v < Workers(s) && BoundToHunt(s, v))
  {
    RunInv(workers, outside, events);
  }

  /** The counter is exact: `searching` is the number of workers in the find loop. */
  lemma SearchingIsExact(workers: nat, outside: nat, events: seq<Event>, s: State)
    requires s == Run(Init(workers, outside), events)
    ensures s.searching == |Hunters(s)|
  {
    RunInv(workers, outside, events);
  }

  /** The idle stack links no worker twice, and following `next` from the stack word visits exactly
      the workers that were pushed and not yet popped. */
  lemma StackIsSimple(workers: nat, outside: nat, events: seq<Event>, s: State)
    requires s == Run(Init(workers, outside), events)
    ensures Distinct(s.stack) && s.top.index == IndexAt(s.stack, 0)
    ensures forall i | 0 <= i < |s.stack| ::
              s.stack[i] < Workers(s) && s.next[s.stack[i]] == IndexAt(s.stack, i + 1)
  {
    RunInv(workers, outside, events);
    forall i | 0 <= i < |s.stack|
      ensures s.stack[i] < Workers(s) && s.next[s.stack[i]] == IndexAt(s.stack, i + 1)
    {
      assert NextOk(s.next, s.stack, i);
    }
  }

  /** An armed parked worker is on the stack or held by a popper that has yet to look at its arm;
      one whose arm was taken is held by a popper that will see it parked. */
  lemma ArmedIsReachable(workers: nat, outside: nat, events: seq<Event>, s: State, q: nat)
    requires s == Run(Init(workers, outside), events)
    requires q < Workers(s) && s.pc[q].Asleep? && s.permit[q] == Parked
    ensures s.armed[q] ==> q in s.stack || PopUnlink(q) in s.pc || PopDisarm(q) in s.pc
    ensures !s.armed[q] ==> PopState(q) in s.pc || Notify(q) in s.pc
  {
    RunInv(workers, outside, events);
    assert ParkOk(s, q);
  }

  // ---------- the idle count ----------

  /** idleCount_, with what is still owed to it, falls short of the armed workers by the registrations
      that found their node still linked, and by those under way; with none under way and nothing
      owed it is exact if and only if no registration ever found its node still linked. */
  lemma IdleCountIsShort(workers: nat, outside: nat, events: seq<Event>, s: State)
    requires s == Run(Init(workers, outside), events)
    ensures s.idleCount + s.toAdd - s.toSub == |ArmedWorkers(s)| - s.skipped - |RegisteringWorkers(s)|
    ensures RegisteringWorkers(s) == {} && s.toAdd == s.toSub == 0 ==>
              (s.idleCount == |ArmedWorkers(s)| <==> s.skipped == 0)
  {
    RunInv(workers, outside, events);
  }

  // Two workers, the second hunting all the time.
  function Solo(pc: Pc, searching: nat, permit: Permit, armed: bool, linked: bool, stack: seq<nat>, idle: int,
                skipped: nat): State
  {
    State(searching, [permit, Empty], [armed, false], [linked, false], [0, 0],
          if stack == [] then Head(0, 0) else Head(1, 1), [pc, Hunting], stack, [false, false], idle, 0, 0, skipped)
  }

  // The state lies on some run of two workers.
  ghost predicate Reached(s: State) {
    exists es :: s == Run(Init(2, 0), es)
  }

  lemma Go(s: State, e: Event, s': State)
    requires Reached(s) && Shape(s) && s' == Step(s, e)
    ensures Reached(s')
  {
    var es :| s == Run(Init(2, 0), es);
    assert (es + [e])[..|es|] == es && Run(Init(2, 0), es + [e]) == s';
  }

  // Worker 0's way from the hunt to the park, and back below.
  lemma GoTry(linked: bool, stack: seq<nat>)
    requires Reached(Solo(Hunting, 2, Empty, false, linked, stack, 0, 0))
    ensures Reached(Solo(TryPark(2), 2, Empty, false, linked, stack, 0, 0))
  {
    Go(Solo(Hunting, 2, Empty, false, linked, stack, 0, 0), AgentStep(0, false), Solo(TryPark(2), 2, Empty, false, linked, stack, 0, 0));
  }

  lemma GoLeave(linked: bool, stack: seq<nat>)
    requires Reached(Solo(TryPark(2), 2, Empty, false, linked, stack, 0, 0))
    ensures Reached(Solo(LeftHunt, 1, Empty, false, linked, stack, 0, 0))
  {
    Go(Solo(TryPark(2), 2, Empty, false, linked, stack, 0, 0), AgentStep(0, true), Solo(LeftHunt, 1, Empty, false, linked, stack, 0, 0));
  }

  lemma GoOn(linked: bool, stack: seq<nat>)
    requires Reached(Solo(LeftHunt, 1, Empty, false, linked, stack, 0, 0))
    ensures Reached(Solo(ParkCas, 1, Empty, false, linked, stack, 0, 0))
  {
    Go(Solo(LeftHunt, 1, Empty, false, linked, stack, 0, 0), AgentStep(0, true), Solo(ParkCas, 1, Empty, false, linked, stack, 0, 0));
  }

  lemma GoPark(linked: bool, stack: seq<nat>)
    requires Reached(Solo(ParkCas, 1, Empty, false, linked, stack, 0, 0))
    ensures Reached(Solo(Arm, 1, Parked, false, linked, stack, 0, 0))
  {
    Go(Solo(ParkCas, 1, Empty, false, linked, stack, 0, 0), AgentStep(0, true), Solo(Arm, 1, Parked, false, linked, stack, 0, 0));
  }

  // It arms, and looks at idleLinked next.
  lemma GoArm(linked: bool, stack: seq<nat>)
    requires Reached(Solo(Arm, 1, Parked, false, linked, stack, 0, 0))
    ensures Reached(Solo(CheckLinked, 1, Parked, true, linked, stack, 0, 0))
  {
    Go(Solo(Arm, 1, Parked, false, linked, stack, 0, 0), AgentStep(0, true),
       Solo(CheckLinked, 1, Parked, true, linked, stack, 0, 0));
  }

  // The first registration marks the node and links it.
  lemma GoMark()
    requires Reached(Solo(CheckLinked, 1, Parked, true, false, [], 0, 0))
    ensures Reached(Solo(LoadTop, 1, Parked, true, true, [], 0, 0))
  {
    Go(Solo(CheckLinked, 1, Parked, true, false, [], 0, 0), AgentStep(0, true),
       Solo(MarkLinked, 1, Parked, true, false, [], 0, 0));
    Go(Solo(MarkLinked, 1, Parked, true, false, [], 0, 0), AgentStep(0, true),
       Solo(LoadTop, 1, Parked, true, true, [], 0, 0));
  }

  lemma GoLink()
    requires Reached(Solo(LoadTop, 1, Parked, true, true, [], 0, 0))
    ensures Reached(Solo(PushCas(Head(0, 0)), 1, Parked, true, true, [], 0, 0))
  {
    Go(Solo(LoadTop, 1, Parked, true, true, [], 0, 0), AgentStep(0, true),
       Solo(SetNext(Head(0, 0)), 1, Parked, true, true, [], 0, 0));
    Go(Solo(SetNext(Head(0, 0)), 1, Parked, true, true, [], 0, 0), AgentStep(0, true),
       Solo(PushCas(Head(0, 0)), 1, Parked, true, true, [], 0, 0));
  }

  // It is pushed and counted.
  lemma GoPush()
    requires Reached(Solo(PushCas(Head(0, 0)), 1, Parked, true, true, [], 0, 0))
    ensures Reached(Solo(Recheck, 1, Parked, true, true, [0], 1, 0))
  {
    Go(Solo(PushCas(Head(0, 0)), 1, Parked, true, true, [], 0, 0), AgentStep(0, true),
       Solo(Recheck, 1, Parked, true, true, [0], 0, 0).(toAdd := 1));
    Go(Solo(Recheck, 1, Parked, true, true, [0], 0, 0).(toAdd := 1), Count(true),
       Solo(Recheck, 1, Parked, true, true, [0], 1, 0));
  }

  // It finds work and takes its arm back, with the node still linked.
  lemma GoDisarm(idle: int, skipped: nat)
    requires Reached(Solo(Recheck, 1, Parked, true, true, [0], idle, skipped))
    ensures Reached(Solo(Unpark, 1, Parked, false, true, [0], idle - 1, skipped))
  {
    Go(Solo(Recheck, 1, Parked, true, true, [0], idle, skipped), AgentStep(0, true),
       Solo(Disarm, 1, Parked, true, true, [0], idle, skipped));
    Go(Solo(Disarm, 1, Parked, true, true, [0], idle, skipped), AgentStep(0, true),
       Solo(Unpark, 1, Parked, false, true, [0], idle, skipped).(toSub := 1));
    Go(Solo(Unpark, 1, Parked, false, true, [0], idle, skipped).(toSub := 1), Count(false),
       Solo(Unpark, 1, Parked, false, true, [0], idle - 1, skipped));
  }

  lemma GoUnpark()
    requires Reached(Solo(Unpark, 1, Parked, false, true, [0], 0, 0))
    ensures Reached(Solo(ToHunt, 1, Empty, false, true, [0], 0, 0))
  {
    Go(Solo(Unpark, 1, Parked, false, true, [0], 0, 0), AgentStep(0, true), Solo(ToHunt, 1, Empty, false, true, [0], 0, 0));
  }

  lemma GoHunt()
    requires Reached(Solo(ToHunt, 1, Empty, false, true, [0], 0, 0))
    ensures Reached(Solo(Hunting, 2, Empty, false, true, [0], 0, 0))
  {
    Go(Solo(ToHunt, 1, Empty, false, true, [0], 0, 0), AgentStep(0, true), Solo(Hunting, 2, Empty, false, true, [0], 0, 0));
  }

  // The second registration finds the node linked and pushes nothing.
  lemma GoSkip()
    requires Reached(Solo(CheckLinked, 1, Parked, true, true, [0], 0, 0))
    ensures Reached(Solo(Recheck, 1, Parked, true, true, [0], 0, 1))
  {
    Go(Solo(CheckLinked, 1, Parked, true, true, [0], 0, 0), AgentStep(0, true),
       Solo(Recheck, 1, Parked, true, true, [0], 0, 1));
  }

  /** A run that takes idleCount_ below zero: a worker registers, unregisters, registers again while
      its node is still linked, and unregisters. */
  lemma IdleCountBelowZero() returns (events: seq<Event>)
    ensures var s := Run(Init(2, 0), events);
            s.idleCount == -1 && s.toAdd == s.toSub == 0 && ArmedWorkers(s) == {} && s.skipped == 1
  {
    assert Run(Init(2, 0), []) == Solo(Hunting, 2, Empty, false, false, [], 0, 0);
    GoTry(false, []);
    GoLeave(false, []);
    GoOn(false, []);
    GoPark(false, []);
    GoArm(false, []);
    GoMark();
    GoLink();
    GoPush();
    GoDisarm(1, 0);
    GoUnpark();
    GoHunt();
    GoTry(true, [0]);
    GoLeave(true, [0]);
    GoOn(true, [0]);
    GoPark(true, [0]);
    GoArm(true, [0]);
    GoSkip();
    GoDisarm(0, 1);
    var s := Solo(Unpark, 1, Parked, false, true, [0], -1, 1);
    events :| s == Run(Init(2, 0), events);
  }

  // ---------- a call left alone ----------

  // A worker that wakes up goes back to the hunt, step by step.
  lemma WakeLooks(s: State, q: nat, choice: bool)
    requires Shape(s) && q < Workers(s) && s.pc[q].Asleep? && s.permit[q] == Notified
    ensures Step(s, AgentStep(q, choice)) == Goto(s, q, WakeConsume)
  {
  }

  lemma WakeConsumes(s: State, q: nat, choice: bool)
    requires Shape(s) && q < Workers(s) && s.pc[q].WakeConsume? && s.permit[q] == Notified
    ensures Step(s, AgentStep(q, choice)) == SetPermit(Goto(s, q, WakeDisarm), q, Empty)
  {
  }

  lemma WakeDisarms(s: State, q: nat, choice: bool)
    requires Shape(s) && q < Workers(s) && s.pc[q].WakeDisarm?
    ensures Step(s, AgentStep(q, choice)) == TakeArm(Goto(s, q, ToHunt), q)
  {
  }

  lemma HuntsAgain(s: State, q: nat, choice: bool)
    requires Shape(s) && q < Workers(s) && s.pc[q].ToHunt?
    ensures var f := Step(s, AgentStep(q, choice));
            f.pc[q].Hunting? && f.searching == s.searching + 1 && f.permit == s.permit && f.armed == s.armed
  {
  }

  /** A kick reaches a sleeper whatever it was parked for: left alone it takes its arm back and is in the hunt again. */
  lemma KickAlone(s: State, q: nat, choice: bool)
    requires Shape(s) && q < Workers(s) && s.pc[q].Asleep?
    ensures Step(s, Kick(q)).permit[q] == Notified
    ensures var e := AgentStep(q, choice);
            var f := Step(Step(Step(Step(Step(s, Kick(q)), e), e), e), e);
            && f.pc[q].Hunting? && f.searching == s.searching + 1 && f.permit[q] == Empty && !f.armed[q]
  {
    var e := AgentStep(q, choice);
    var s1 := Step(s, Kick(q));
    assert s1 == SetPermit(s, q, Notified);
    hide Step;
    WakeLooks(s1, q, choice);
    var s2 := Goto(s1, q, WakeConsume);
    WakeConsumes(s2, q, choice);
    var s3 := SetPermit(Goto(s2, q, WakeDisarm), q, Empty);
    WakeDisarms(s3, q, choice);
    HuntsAgain(TakeArm(Goto(s3, q, ToHunt), q), q, choice);
  }

  // Agent a takes n steps of its pop, with no spurious failure, and nobody else moves.
  function PopFor(s: State, a: nat, n: nat): (f: State)
    requires Shape(s) && a < |s.pc|
    ensures Shape(f) && |f.pc| == |s.pc| && Workers(f) == Workers(s)
    decreases n
  {
    if n == 0 then s else PopFor(StepPop(s, a, true), a, n - 1)
  }

  lemma {:induction false} PopForSum(s: State, a: nat, m: nat, n: nat)
    requires Shape(s) && a < |s.pc|
    ensures PopFor(s, a, m + n) == PopFor(PopFor(s, a, m), a, n)
    decreases m
  {
    hide StepPop, Shape;
    if m > 0 {
      var s' := StepPop(s, a, true);
      PopForSum(s', a, m - 1, n);
      assert PopFor(s, a, m) == PopFor(s', a, m - 1);
      assert PopFor(s, a, m + n) == PopFor(s', a, m + n - 1) == PopFor(s', a, (m - 1) + n);
    }
  }

  // The top of the stack taken off, its mark cleared and its arm taken.
  function PoppedTop(s: State, a: nat): State
    requires Shape(s) && a < |s.pc| && s.stack != [] && s.stack[0] < Workers(s)
  {
    var q := s.stack[0];
    TakeArm(Goto(s, a, if s.armed[q] then PopState(q) else PopLoad), q)
      .(linked := s.linked[q := false], top := Head(s.top.version + 1, s.next[q]), stack := s.stack[1..])
  }

  lemma PopLook(s: State, a: nat)
    requires Shape(s) && StackOk(s) && a < |s.pc| && s.pc[a].PopLoad? && s.stack != []
    ensures s.stack[0] < Workers(s)
    ensures PopFor(s, a, 2) == Goto(s, a, PopCas(s.top, s.next[s.stack[0]]))
  {
    assert NextOk(s.next, s.stack, 0);
    var s1 := StepPop(s, a, true);
    assert s1 == Goto(s, a, PopNext(s.top));
    var s2 := StepPop(s1, a, true);
    assert s2.pc == s.pc[a := PopCas(s.top, s.next[s.stack[0]])];
    assert PopFor(s, a, 2) == PopFor(s1, a, 1) == PopFor(s2, a, 0);
  }

  lemma PopSwaps(s: State, a: nat)
    requires Shape(s) && StackOk(s) && a < |s.pc| && s.stack != [] && s.stack[0] < Workers(s)
    requires s.pc[a] == PopCas(s.top, s.next[s.stack[0]])
    ensures StepPop(s, a, true) ==
            Goto(s, a, PopUnlink(s.stack[0])).(top := Head(s.top.version + 1, s.next[s.stack[0]]), stack := s.stack[1..])
  {
  }

  lemma PopUnlinks(s: State, a: nat, q: nat)
    requires Shape(s) && a < |s.pc| && q < Workers(s) && s.pc[a] == PopUnlink(q)
    ensures StepPop(s, a, true) == Goto(s, a, PopDisarm(q)).(linked := s.linked[q := false])
  {
  }

  lemma PopDisarms(s: State, a: nat, q: nat)
    requires Shape(s) && a < |s.pc| && q < Workers(s) && s.pc[a] == PopDisarm(q)
    ensures StepPop(s, a, true) == TakeArm(Goto(s, a, if s.armed[q] then PopState(q) else PopLoad), q)
  {
  }

  lemma PopTake(s: State, a: nat)
    requires Shape(s) && StackOk(s) && a < |s.pc| && s.stack != [] && s.stack[0] < Workers(s)
    requires s.pc[a] == PopCas(s.top, s.next[s.stack[0]])
    ensures PopFor(s, a, 3) == PoppedTop(s, a)
  {
    hide StepPop, StackOk;
    var q := s.stack[0];
    PopSwaps(s, a);
    var s1 := StepPop(s, a, true);
    PopUnlinks(s1, a, q);
    var s2 := StepPop(s1, a, true);
    PopDisarms(s2, a, q);
    var s3 := StepPop(s2, a, true);
    assert s3.pc == s.pc[a := s3.pc[a]];
    assert PopFor(s, a, 3) == PopFor(s1, a, 2) == PopFor(s2, a, 1) == PopFor(s3, a, 0);
  }

  lemma PopTop(s: State, a: nat)
    requires Shape(s) && StackOk(s) && a < |s.pc| && s.pc[a].PopLoad? && s.stack != []
    ensures s.stack[0] < Workers(s) && PopFor(s, a, 5) == PoppedTop(s, a) && StackOk(PoppedTop(s, a))
  {
    PopLook(s, a);
    var mid := Goto(s, a, PopCas(s.top, s.next[s.stack[0]]));
    PopTake(mid, a);
    PopForSum(s, a, 2, 3);
    var f := PoppedTop(s, a);
    assert PoppedTop(mid, a).pc == f.pc;
    assert NextOk(s.next, s.stack, 0);
    forall i | 0 <= i < |f.stack| ensures NextOk(f.next, f.stack, i) { assert NextOk(s.next, s.stack, i + 1); }
  }

  // How many workers a pop passes over before one that is armed and parked.
  function Skipped(s: State, stack: seq<nat>): nat {
    if stack == [] then 0
    else if stack[0] < |s.armed| && stack[0] < |s.permit| && s.armed[stack[0]] && s.permit[stack[0]] == Parked then 0
    else 1 + Skipped(s, stack[1..])
  }

  lemma {:induction false} SkippedWithin(s: State, stack: seq<nat>)
    ensures Skipped(s, stack) <= |stack|
  {
    if stack != [] && Skipped(s, stack) > 0 { SkippedWithin(s, stack[1..]); }
  }

  // What a pop left alone ends with: the first armed, parked worker of the stack notified and everything above
  // it off the stack; or the stack empty and nobody notified.
  predicate PopsOne(s: State, a: nat, f: State)
    requires Shape(s)
  {
    var k := Skipped(s, s.stack);
    && a < |f.pc| && f.pc[a].Running?
    && (if k < |s.stack| then s.stack[k] < |s.permit| && f.permit == s.permit[s.stack[k] := Notified] && f.stack == s.stack[k + 1..]
        else f.permit == s.permit && f.stack == [])
  }

  lemma PopEmpty(s: State, a: nat)
    requires Shape(s) && StackOk(s) && a < |s.pc| && s.pc[a].PopLoad? && s.stack == []
    ensures PopsOne(s, a, PopFor(s, a, 1))
  {
    assert PopFor(s, a, 1) == PopFor(StepPop(s, a, true), a, 0);
  }

  lemma PopNotifies(s: State, a: nat, q: nat)
    requires Shape(s) && a < |s.pc| && q < Workers(s) && s.pc[a] == PopState(q)
    ensures s.permit[q] == Parked ==> PopFor(s, a, 2) == SetPermit(Goto(s, a, Running), q, Notified)
    ensures s.permit[q] != Parked ==> PopFor(s, a, 1) == Goto(s, a, PopLoad)
  {
    var s1 := StepPop(s, a, true);
    assert PopFor(s, a, 1) == PopFor(s1, a, 0);
    if s.permit[q] == Parked {
      assert s1 == Goto(s, a, Notify(q));
      var s2 := StepPop(s1, a, true);
      assert s2.pc == s.pc[a := Running];
      assert PopFor(s, a, 2) == PopFor(s1, a, 1) == PopFor(s2, a, 0);
    }
  }

  lemma SameSkipped(s: State, s': State, stack: seq<nat>, q: nat)
    requires s'.permit == s.permit && q < |s.armed| && s'.armed == s.armed[q := false] && q !in stack
    ensures Skipped(s', stack) == Skipped(s, stack)
  {
    if stack != [] { SameSkipped(s, s', stack[1..], q); }
  }

  // The top worker is passed over: what the pop does from there is what it does.
  lemma PassedOver(s: State, s': State, a: nat, f: State)
    requires Shape(s) && Shape(s') && s.stack != [] && s'.stack == s.stack[1..] && s'.permit == s.permit
    requires Skipped(s, s.stack) == 1 + Skipped(s', s'.stack) && PopsOne(s', a, f)
    ensures PopsOne(s, a, f)
  {
    SkippedWithin(s', s'.stack);
  }

  lemma FoundOne(s: State, s': State, a: nat)
    requires Shape(s) && Shape(s') && a < |s'.pc| && s.stack != [] && s.stack[0] < Workers(s)
    requires s.armed[s.stack[0]] && s.permit[s.stack[0]] == Parked
    requires s'.stack == s.stack[1..] && s'.permit == s.permit && Workers(s') == Workers(s)
    ensures PopsOne(s, a, SetPermit(Goto(s', a, Running), s.stack[0], Notified))
  {
  }

  /** A pop left alone notifies the first worker from the top of the stack that is armed and parked, if there is one. */
  lemma {:induction false} PopAlone(s: State, a: nat) returns (n: nat)
    requires Shape(s) && StackOk(s) && a < |s.pc| && s.pc[a].PopLoad?
    ensures PopsOne(s, a, PopFor(s, a, n))
    decreases |s.stack|
  {
    hide StepPop, StackOk, PopsOne;
    if s.stack == [] {
      PopEmpty(s, a);
      n := 1;
    } else {
      PopTop(s, a);
      TopIsOnce(s);
      var q, f := s.stack[0], PoppedTop(s, a);
      SameSkipped(s, f, f.stack, q);
      if !s.armed[q] {
        var m := PopAlone(f, a);
        n := 5 + m;
        PopForSum(s, a, 5, m);
        PassedOver(s, f, a, PopFor(s, a, n));
      } else {
        PopNotifies(f, a, q);
        if s.permit[q] == Parked {
          n := 5 + 2;
          PopForSum(s, a, 5, 2);
          FoundOne(s, f, a);
        } else {
          LookAgain(f, a);
          var m := PopAlone(Goto(f, a, PopLoad), a);
          n := 5 + (1 + m);
          PopForSum(f, a, 1, m);
          PopForSum(s, a, 5, 1 + m);
          PassedOver(s, Goto(f, a, PopLoad), a, PopFor(s, a, n));
        }
      }
    }
  }

  lemma LookAgain(s: State, a: nat)
    requires Shape(s) && StackOk(s) && a < |s.pc|
    ensures var s' := Goto(s, a, PopLoad); Shape(s') && StackOk(s') && Skipped(s', s.stack) == Skipped(s, s.stack)
  {
    var s' := Goto(s, a, PopLoad);
    forall i | 0 <= i < |s.stack| ensures NextOk(s'.next, s'.stack, i) { assert NextOk(s.next, s.stack, i); }
    SkippedAlike(s, s', s.stack);
  }

  lemma SkippedAlike(s: State, s': State, stack: seq<nat>)
    requires s'.permit == s.permit && s'.armed == s.armed
    ensures Skipped(s', stack) == Skipped(s, stack)
  {
    if stack != [] { SkippedAlike(s, s', stack[1..]); }
  }

  lemma TopIsOnce(s: State)
    requires Shape(s) && StackOk(s) && s.stack != []
    ensures s.stack[0] !in s.stack[1..]
  {
  }

  /** The last hunter that finds a task, and anybody who places work, notifies the first armed, parked worker
      there is, left alone. */
  lemma HandOffAlone(s: State, w: nat, e: Event) returns (n: nat)
    requires Shape(s) && StackOk(s) && w < |s.pc|
    requires || (e == AgentStep(w, true) && w < Workers(s) && s.pc[w].Hunting? && s.searching == 1)
             || (e == PlaceWork(w) && s.pc[w].Running?)
    ensures var left := Step(s, e);
            && w < |left.pc| && (e.AgentStep? ==> left.searching == 0) && PopsOne(s, w, PopFor(left, w, n))
  {
    var left := Step(s, e);
    assert left.pc[w].PopLoad? && left.stack == s.stack && left.permit == s.permit && left.armed == s.armed;
    forall i | 0 <= i < |s.stack| ensures NextOk(left.next, left.stack, i) { assert NextOk(s.next, s.stack, i); }
    n := PopAlone(left, w);
    SkippedAlike(s, left, s.stack);
  }

  /** A worker that registers, left alone, is armed and on top of the stack, and linked there once. */
  lemma RegisterAlone(s: State, w: nat)
    requires Shape(s) && w < Workers(s) && s.pc[w].Arm? && !s.linked[w]
    ensures var e := AgentStep(w, true);
            var f := Step(Step(Step(Step(Step(Step(s, e), e), e), e), e), e);
            && f.pc[w].Recheck? && f.armed[w] && f.linked[w] && f.stack == [w] + s.stack
            && f.top.index == w + 1 && f.next[w] == s.top.index && f.toAdd == s.toAdd + 1 && f.permit == s.permit
  {
    var e := AgentStep(w, true);
    RegisterMarks(s, w);
    hide StepRegister, StepHunt, StepPark, StepPop;
    RegisterPushes(Step(Step(Step(s, e), e), e), w);
  }

  lemma RegisterMarks(s: State, w: nat)
    requires Shape(s) && w < Workers(s) && s.pc[w].Arm? && !s.linked[w]
    ensures var e := AgentStep(w, true);
            Step(Step(Step(s, e), e), e) ==
            Goto(s, w, LoadTop).(armed := s.armed[w := true], linked := s.linked[w := true])
  {
    var e := AgentStep(w, true);
    var s1 := Step(s, e);
    assert s1 == Goto(s, w, CheckLinked).(armed := s.armed[w := true]);
    var s2 := Step(s1, e);
    assert s2 == Goto(s1, w, MarkLinked);
    assert Step(s2, e) == Goto(s2, w, LoadTop).(linked := s.linked[w := true]);
    assert Step(s2, e).pc == s.pc[w := LoadTop];
  }

  lemma RegisterPushes(s: State, w: nat)
    requires Shape(s) && w < Workers(s) && s.pc[w].LoadTop?
    ensures var e := AgentStep(w, true);
            var f := Step(Step(Step(s, e), e), e);
            && f.pc[w].Recheck? && f.armed == s.armed && f.linked == s.linked && f.stack == [w] + s.stack
            && f.top.index == w + 1 && f.next[w] == s.top.index && f.toAdd == s.toAdd + 1 && f.permit == s.permit
  {
    var e := AgentStep(w, true);
    var s1 := Step(s, e);
    assert s1 == Goto(s, w, SetNext(s.top));
    var s2 := Step(s1, e);
    assert s2 == Goto(s1, w, PushCas(s.top)).(next := s.next[w := s.top.index]);
  }

  /** A registered worker that finds nothing and sees a hunter falls asleep; one that sees none goes back to hunt. */
  lemma SleepAlone(s: State, w: nat, choice: bool)
    requires Shape(s) && w < Workers(s) && s.pc[w].Recheck? && s.permit[w] == Parked
    ensures var f := Step(Step(s, AgentStep(w, false)), AgentStep(w, choice));
            if s.searching > 0 then SleepsParked(f, w) else f.pc[w].Disarm?
  {
  }
}
