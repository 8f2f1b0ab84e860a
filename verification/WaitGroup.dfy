/**
  The WaitGroup completion protocol (include/WaitGroup.h, src/WaitGroup.cpp), as a
  transition system of single accesses to the group over any number of agents.  An agent
  completes work (Done), waits as a task (AddWaiter), waits as a blocked thread
  (BlockThread), or polls the count and settles.

  The packed word `n` is its two parts: `count` and the waiter bit.  Premise: the count may
  rise only while it is not zero, and every unit of it is completed at most once; `claimed`
  counts the units whose Done has begun and not yet decremented.
 */
module WaitGroup {

  datatype Option<+T> = None | Some(value: T)

  datatype Word = WordRunning | WordWaiting | WordKicked

  datatype Pc =
    | Idle
    // Done: the waking mark brackets the decrement
    | Marked                                             // waking raised; the decrement comes next
    | Unmark                                             // no wake owed; waking is lowered next
    // WakeAll(true)
    | WakeLock
    | WakeSwap                                           // locked; blockedThreads is swapped out next
    | WakeTake(threads: seq<nat>)                        // the waiter list is taken next
    | WakeBit(threads: seq<nat>, tasks: seq<nat>)
    | WakeUnmark(threads: seq<nat>, tasks: seq<nat>)
    | WakeUnlock(threads: seq<nat>, tasks: seq<nat>)
    | Waking(threads: seq<nat>, tasks: seq<nat>)         // past the group: local copies only
    // AddWaiter and WakeAllDirect
    | ListCas(head: Option<nat>)                         // head loaded; the push comes next
    | ListBit                                            // pushed; fetch_or comes next
    | DirectTake                                         // the count was already zero
    | DirectBit(tasks: seq<nat>)
    | DirectWake(tasks: seq<nat>)
    | Suspended
    // BlockThread
    | BlockLock
    | BlockBit
    | BlockPush
    | BlockUnlock
    | Blocked
    | BlockCheck                                         // kicked; the count is read next
    | BlockLeave                                         // the count was zero: unlock, then settle
    // Settle
    | SettleSpin
    | SettleLock
    | SettleUnlock
    | Settled

  datatype Where = Nowhere | OnGroup | InHandOf(a: nat)

  datatype State = State(
    count: nat,
    bit: bool,
    waking: nat,
    lock: Option<nat>,
    list: seq<nat>,            // taskWaiters, newest first
    blocked: seq<nat>,         // blockedThreads
    word: seq<Word>,
    claimed: nat,
    pc: seq<Pc>,
    joins: seq<nat>,           // history: registrations of each agent, as a task or a thread
    wakes: seq<nat>,           // history: wakes of each agent
    where: seq<Where>)         // history: where each agent's registration is

  datatype Event =
    | Add                      // one more unit, only while the count is not zero
    | BeginDone(a: nat)
    | BeginWait(a: nat)
    | BeginBlock(a: nat)
    | Poll(a: nat)             // a waiter that does not suspend reads the count
    | AgentStep(a: nat)

  function Init(count: nat, agents: nat): State {
    State(count, false, 0, None, [], [], seq(agents, _ => WordRunning), 0,
          seq(agents, _ => Idle), seq(agents, _ => 0), seq(agents, _ => 0), seq(agents, _ => Nowhere))
  }

  predicate Shape(s: State) {
    |s.word| == |s.pc| && |s.joins| == |s.pc| && |s.wakes| == |s.pc| && |s.where| == |s.pc|
  }

  // ---------- the steps ----------

  function Goto(s: State, a: nat, p: Pc): State
    requires a < |s.pc|
  {
    s.(pc := s.pc[a := p])
  }

  function First(xs: seq<nat>): Option<nat> {
    if xs == [] then None else Some(xs[0])
  }

  function Join(s: State, a: nat): State
    requires Shape(s) && a < |s.pc|
  {
    s.(joins := s.joins[a := s.joins[a] + 1], where := s.where[a := OnGroup])
  }

  function MoveAll(where: seq<Where>, xs: seq<nat>, to: Where): (w: seq<Where>)
    ensures |w| == |where|
  {
    seq(|where|, t requires 0 <= t < |where| => if t in xs then to else where[t])
  }

  function Wake(s: State, t: nat): State
    requires Shape(s)
  {
    if t < |s.pc| then s.(wakes := s.wakes[t := s.wakes[t] + 1], where := s.where[t := Nowhere]) else s
  }

  function Kick(s: State, t: nat): State
    requires Shape(s)
  {
    if t < |s.pc| then Wake(s, t).(word := s.word[t := WordKicked]) else s
  }

  function StepDone(s: State, a: nat): (s': State)
    requires Shape(s) && a < |s.pc|
    ensures Shape(s') && |s'.pc| == |s.pc|
  {
    match s.pc[a]
    case Marked =>
      if s.count == 0 || s.claimed == 0 then s
      else Goto(s, a, if s.count == 1 && s.bit then WakeLock else Unmark).(
             count := s.count - 1, claimed := s.claimed - 1)
    case Unmark => if s.waking == 0 then s else Goto(s, a, Idle).(waking := s.waking - 1)
    case WakeLock => if s.lock.None? then Goto(s, a, WakeSwap).(lock := Some(a)) else s
    case WakeSwap =>
      Goto(s, a, WakeTake(s.blocked)).(blocked := [], where := MoveAll(s.where, s.blocked, InHandOf(a)))
    case WakeTake(threads) =>
      Goto(s, a, WakeBit(threads, s.list)).(list := [], where := MoveAll(s.where, s.list, InHandOf(a)))
    case WakeBit(threads, tasks) => Goto(s, a, WakeUnmark(threads, tasks)).(bit := false)
    case WakeUnmark(threads, tasks) =>
      if s.waking == 0 then s else Goto(s, a, WakeUnlock(threads, tasks)).(waking := s.waking - 1)
    case WakeUnlock(threads, tasks) => Goto(s, a, Waking(threads, tasks)).(lock := None)
    case Waking(threads, tasks) =>
      if threads != [] then Kick(Goto(s, a, Waking(threads[1..], tasks)), threads[0])
      else if tasks != [] then Wake(Goto(s, a, Waking([], tasks[1..])), tasks[0])
      else Goto(s, a, Idle)
    case _ => s
  }

  function StepWait(s: State, a: nat): (s': State)
    requires Shape(s) && a < |s.pc|
    ensures Shape(s') && |s'.pc| == |s.pc|
  {
    match s.pc[a]
    case ListCas(head) =>
      if First(s.list) == head then Join(Goto(s, a, ListBit), a).(list := [a] + s.list)
      else Goto(s, a, ListCas(First(s.list)))
    case ListBit => Goto(s, a, if s.count == 0 then DirectTake else Suspended).(bit := true)
    case DirectTake =>
      Goto(s, a, if s.list == [] then Suspended else DirectBit(s.list)).(
        list := [], where := MoveAll(s.where, s.list, InHandOf(a)))
    case DirectBit(tasks) => Goto(s, a, DirectWake(tasks)).(bit := false)
    case DirectWake(tasks) =>
      if tasks != [] then Wake(Goto(s, a, DirectWake(tasks[1..])), tasks[0]) else Goto(s, a, Suspended)
    case Suspended => if s.wakes[a] == s.joins[a] then Goto(s, a, Idle) else s
    case _ => s
  }

  function StepBlock(s: State, a: nat): (s': State)
    requires Shape(s) && a < |s.pc|
    ensures Shape(s') && |s'.pc| == |s.pc|
  {
    match s.pc[a]
    case BlockLock => if s.lock.None? then Goto(s, a, BlockBit).(lock := Some(a)) else s
    case BlockBit => Goto(s, a, if s.count == 0 then BlockLeave else BlockPush).(bit := true)
    case BlockPush => Join(Goto(s, a, BlockUnlock), a).(blocked := s.blocked + [a])
    case BlockUnlock => Goto(s, a, Blocked).(lock := None)
    case Blocked => if s.word[a] == WordWaiting then s else Goto(s, a, BlockCheck)
    case BlockCheck =>
      if s.count == 0 then Goto(s, a, SettleSpin)
      else Goto(s, a, BlockLock).(word := s.word[a := WordWaiting])
    case BlockLeave => Goto(s, a, SettleSpin).(lock := None)
    case SettleSpin => if s.waking == 0 then Goto(s, a, SettleLock) else s
    case SettleLock => if s.lock.None? then Goto(s, a, SettleUnlock).(lock := Some(a)) else s
    case SettleUnlock => Goto(s, a, Settled).(lock := None)
    case _ => s
  }

  predicate DonePc(p: Pc) {
    p.Marked? || p.Unmark? || p.WakeLock? || p.WakeSwap? || p.WakeTake? || p.WakeBit? || p.WakeUnmark?
    || p.WakeUnlock? || p.Waking?
  }

  predicate WaitPc(p: Pc) {
    p.ListCas? || p.ListBit? || p.DirectTake? || p.DirectBit? || p.DirectWake? || p.Suspended?
  }

  function Step(s: State, e: Event): (s': State)
    requires Shape(s)
    ensures Shape(s') && |s'.pc| == |s.pc|
  {
    match e
    case Add => if s.count > 0 then s.(count := s.count + 1) else s
    case BeginDone(a) =>
      if a < |s.pc| && s.pc[a].Idle? && s.claimed < s.count
      then Goto(s, a, Marked).(waking := s.waking + 1, claimed := s.claimed + 1) else s
    case BeginWait(a) =>
      if a < |s.pc| && s.pc[a].Idle? then Goto(s, a, ListCas(First(s.list))) else s
    case BeginBlock(a) =>
      if a < |s.pc| && s.pc[a].Idle? then Goto(s, a, BlockLock).(word := s.word[a := WordWaiting]) else s
    case Poll(a) =>
      if a < |s.pc| && s.pc[a].Idle? && s.count == 0 then Goto(s, a, SettleSpin) else s
    case AgentStep(a) =>
      if a >= |s.pc| then s
      else if DonePc(s.pc[a]) then StepDone(s, a)
      else if WaitPc(s.pc[a]) then StepWait(s, a)
      else StepBlock(s, a)
  }

  function Run(s: State, events: seq<Event>): (s': State)
    requires Shape(s)
    ensures Shape(s')
  {
    if events == [] then s
    else Step(Run(s, events[..|events| - 1]), events[|events| - 1])
  }

  // ---------- the invariant ----------

  function Claimers(s: State): set<nat> {
    set a | 0 <= a < |s.pc| && s.pc[a].Marked?
  }

  // Completers whose mark is up.
  predicate Mark(p: Pc) {
    p.Marked? || p.Unmark? || p.WakeLock? || p.WakeSwap? || p.WakeTake? || p.WakeBit? || p.WakeUnmark?
  }

  function Markers(s: State): set<nat> {
    set a | 0 <= a < |s.pc| && Mark(s.pc[a])
  }

  predicate CountsOk(s: State) {
    s.claimed == |Claimers(s)| && s.claimed <= s.count && s.waking == |Markers(s)|
  }

  predicate HoldsLock(p: Pc) {
    p.WakeSwap? || p.WakeTake? || p.WakeBit? || p.WakeUnmark? || p.WakeUnlock?
    || p.BlockBit? || p.BlockPush? || p.BlockUnlock? || p.BlockLeave? || p.SettleUnlock?
  }

  predicate LockOk(s: State) {
    forall a | 0 <= a < |s.pc| :: HoldsLock(s.pc[a]) <==> s.lock == Some(a)
  }

  // Program counters that are reached only after the count was seen to be zero.
  predicate SawZero(p: Pc) {
    p.WakeLock? || p.WakeSwap? || p.WakeTake? || p.WakeBit? || p.WakeUnmark? || p.WakeUnlock? || p.Waking?
    || p.DirectTake? || p.DirectBit? || p.DirectWake? || p.BlockLeave?
    || p.SettleSpin? || p.SettleLock? || p.SettleUnlock? || p.Settled?
  }

  predicate ZeroOk(s: State) {
    forall a | 0 <= a < |s.pc| && SawZero(s.pc[a]) :: s.count == 0
  }

  // The waiters an agent has taken off the group and not yet woken.
  function TasksOf(p: Pc): seq<nat> {
    match p
    case WakeBit(_, tasks) => tasks
    case WakeUnmark(_, tasks) => tasks
    case WakeUnlock(_, tasks) => tasks
    case Waking(_, tasks) => tasks
    case DirectBit(tasks) => tasks
    case DirectWake(tasks) => tasks
    case _ => []
  }

  function ThreadsOf(p: Pc): seq<nat> {
    match p
    case WakeTake(threads) => threads
    case WakeBit(threads, _) => threads
    case WakeUnmark(threads, _) => threads
    case WakeUnlock(threads, _) => threads
    case Waking(threads, _) => threads
    case _ => []
  }

  // Everything an agent holds, threads and tasks.
  function InHand(p: Pc): seq<nat> {
    ThreadsOf(p) + TasksOf(p)
  }

  // Everything registered and not yet taken.
  function Registered(s: State): seq<nat> {
    s.blocked + s.list
  }

  predicate Distinct(xs: seq<nat>) {
    forall i, j | 0 <= i < j < |xs| :: xs[i] != xs[j]
  }

  // A list that holds exactly the agents whose registration is at one place, once each.
  predicate Holds(s: State, xs: seq<nat>, w: Where)
    requires Shape(s)
  {
    && Distinct(xs)
    && (forall t | t in xs :: t < |s.pc| && s.where[t] == w)
    && (forall t | 0 <= t < |s.pc| && s.where[t] == w :: t in xs)
  }

  predicate OnceOk(s: State)
    requires Shape(s)
  {
    Holds(s, Registered(s), OnGroup) && forall a | 0 <= a < |s.pc| :: Holds(s, InHand(s.pc[a]), InHandOf(a))
  }

  predicate AsTask(p: Pc) {
    WaitPc(p) && !p.ListCas?
  }

  predicate AsThread(p: Pc) {
    p.BlockUnlock? || p.Blocked?
  }

  // Tasks are on the waiter list, threads on the blocked list, and so in every hand.
  predicate KindOk(s: State)
    requires Shape(s)
  {
    && (forall t | t in s.list && t < |s.pc| :: AsTask(s.pc[t]))
    && (forall t | t in s.blocked && t < |s.pc| :: AsThread(s.pc[t]))
    && (forall a, t | 0 <= a < |s.pc| && t in TasksOf(s.pc[a]) && t < |s.pc| :: AsTask(s.pc[t]))
    && (forall a, t | 0 <= a < |s.pc| && t in ThreadsOf(s.pc[a]) && t < |s.pc| :: AsThread(s.pc[t]))
  }

  // A registration owes one wake until it has been woken.
  predicate WaiterOk(s: State, t: nat)
    requires Shape(s) && t < |s.pc|
  {
    && s.joins[t] == s.wakes[t] + (if s.where[t] == Nowhere then 0 else 1)
    && (s.where[t].InHandOf? ==> s.where[t].a < |s.pc|)
    && (s.where[t] != Nowhere ==> AsTask(s.pc[t]) || AsThread(s.pc[t]))
    && (AsThread(s.pc[t]) ==> (s.word[t] == WordWaiting <==> s.where[t] != Nowhere))
    && (s.pc[t].BlockLock? || s.pc[t].BlockBit? || s.pc[t].BlockPush? ==> s.word[t] == WordWaiting)
  }

  // Takers of the task list that have not taken it yet.
  predicate WillTakeTasks(p: Pc) {
    p.ListBit? || p.DirectTake? || p.WakeLock? || p.WakeSwap? || p.WakeTake?
  }

  predicate WillTakeThreads(p: Pc) {
    p.WakeLock? || p.WakeSwap?
  }

  predicate TasksComing(s: State) {
    || (s.count > 0 && s.bit)
    || (exists a :: 0 <= a < |s.pc| && WillTakeTasks(s.pc[a]))
  }

  predicate ThreadsComing(s: State) {
    || (s.count > 0 && s.bit)
    || (exists a :: 0 <= a < |s.pc| && WillTakeThreads(s.pc[a]))
  }

  predicate PushesThread(s: State) {
    exists a :: 0 <= a < |s.pc| && s.pc[a].BlockPush?
  }

  // Whoever is still registered, or about to be, has a wake coming.
  predicate WakeComes(s: State) {
    && (s.list != [] ==> TasksComing(s))
    && (s.blocked != [] || PushesThread(s) ==> ThreadsComing(s))
  }

  predicate PastSpin(p: Pc) {
    p.SettleLock? || p.SettleUnlock? || p.Settled?
  }

  predicate PastLock(p: Pc) {
    p.SettleUnlock? || p.Settled?
  }

  // Past the spin no mark is up; past the lock no completer is inside.
  predicate SettleOk(s: State) {
    && (forall a, b | 0 <= a < |s.pc| && 0 <= b < |s.pc| && PastSpin(s.pc[a]) :: !Mark(s.pc[b]))
    && (forall a, b | 0 <= a < |s.pc| && 0 <= b < |s.pc| && PastLock(s.pc[a]) :: !s.pc[b].WakeUnlock?)
  }

  predicate Inv(s: State) {
    && Shape(s) && CountsOk(s) && LockOk(s) && ZeroOk(s) && OnceOk(s) && KindOk(s)
    && (forall t | 0 <= t < |s.pc| :: WaiterOk(s, t))
    && WakeComes(s) && SettleOk(s)
  }

  // ---------- preservation: counts, lock, zero ----------

  lemma SizeSwap(x: set<nat>, y: set<nat>, a: nat)
    requires x - {a} == y - {a}
    ensures |y| == |x| - (if a in x then 1 else 0) + (if a in y then 1 else 0)
  {
    assert a in x ==> x == (x - {a}) + {a};
    assert a in y ==> y == (y - {a}) + {a};
    assert a !in x ==> x == x - {a};
    assert a !in y ==> y == y - {a};
  }

  // Claimers and markers follow the one program counter that moves.
  lemma SetsUpdate(s: State, s': State, a: nat, p: Pc)
    requires a < |s.pc| && s'.pc == s.pc[a := p]
    ensures |Claimers(s')| == |Claimers(s)| - (if s.pc[a].Marked? then 1 else 0) + (if p.Marked? then 1 else 0)
    ensures |Markers(s')| == |Markers(s)| - (if Mark(s.pc[a]) then 1 else 0) + (if Mark(p) then 1 else 0)
  {
    SizeSwap(Claimers(s), Claimers(s'), a);
    SizeSwap(Markers(s), Markers(s'), a);
  }

  // The three simple facts, for a step that takes agent a to p.
  predicate SimpleInv(s: State) {
    CountsOk(s) && LockOk(s) && ZeroOk(s)
  }

  lemma SimpleStill(s: State, s': State, a: nat, p: Pc)
    requires SimpleInv(s) && a < |s.pc| && s'.pc == s.pc[a := p]
    requires s'.count == s.count || (s.count > 0 && s'.count == s.count - 1)
    requires s'.claimed == s.claimed - (if s.pc[a].Marked? then 1 else 0) + (if p.Marked? then 1 else 0) <= s'.count
    requires s'.waking == s.waking - (if Mark(s.pc[a]) then 1 else 0) + (if Mark(p) then 1 else 0)
    requires SawZero(p) ==> s'.count == 0
    requires if HoldsLock(p) then s'.lock == Some(a) && (HoldsLock(s.pc[a]) || s.lock == None)
             else s'.lock == (if HoldsLock(s.pc[a]) then None else s.lock)
    ensures SimpleInv(s')
  {
    SetsUpdate(s, s', a, p);
    assert HoldsLock(s.pc[a]) <==> s.lock == Some(a);
    forall b | 0 <= b < |s'.pc| ensures HoldsLock(s'.pc[b]) <==> s'.lock == Some(b) {
      assert HoldsLock(s.pc[b]) <==> s.lock == Some(b);
    }
  }

  lemma DoneSimple(s: State, a: nat)
    requires Shape(s) && SimpleInv(s) && a < |s.pc| && DonePc(s.pc[a])
    ensures SimpleInv(StepDone(s, a))
  {
    var s' := StepDone(s, a);
    assert HoldsLock(s.pc[a]) <==> s.lock == Some(a);
    if Mark(s.pc[a]) { assert a in Markers(s); }
    if s.pc[a].Marked? { assert a in Claimers(s); }
    if s' != s { SimpleStill(s, s', a, s'.pc[a]); }
  }

  lemma WaitSimple(s: State, a: nat)
    requires Shape(s) && SimpleInv(s) && a < |s.pc| && WaitPc(s.pc[a])
    ensures SimpleInv(StepWait(s, a))
  {
    var s' := StepWait(s, a);
    assert HoldsLock(s.pc[a]) <==> s.lock == Some(a);
    SimpleStill(s, s', a, s'.pc[a]);
  }

  predicate SettlePc(p: Pc) {
    p.BlockLeave? || p.SettleSpin? || p.SettleLock? || p.SettleUnlock?
  }

  lemma SettleSimple(s: State, a: nat)
    requires Shape(s) && SimpleInv(s) && a < |s.pc| && SettlePc(s.pc[a])
    ensures SimpleInv(StepBlock(s, a))
  {
    var s' := StepBlock(s, a);
    assert HoldsLock(s.pc[a]) <==> s.lock == Some(a);
    if s' != s { SimpleStill(s, s', a, s'.pc[a]); }
  }

  lemma EnterSimple(s: State, a: nat)
    requires Shape(s) && SimpleInv(s) && a < |s.pc| && (s.pc[a].BlockLock? || s.pc[a].BlockBit? || s.pc[a].BlockPush?)
    ensures SimpleInv(StepBlock(s, a))
  {
    var s' := StepBlock(s, a);
    assert HoldsLock(s.pc[a]) <==> s.lock == Some(a);
    if !s.pc[a].BlockLock? || s.lock.None? { SimpleStill(s, s', a, s'.pc[a]); }
  }

  lemma SleepSimple(s: State, a: nat)
    requires Shape(s) && SimpleInv(s) && a < |s.pc| && (s.pc[a].BlockUnlock? || s.pc[a].Blocked? || s.pc[a].BlockCheck?)
    ensures SimpleInv(StepBlock(s, a))
  {
    var s' := StepBlock(s, a);
    assert HoldsLock(s.pc[a]) <==> s.lock == Some(a);
    if !s.pc[a].Blocked? || s.word[a] != WordWaiting { SimpleStill(s, s', a, s'.pc[a]); }
  }

  lemma BlockSimple(s: State, a: nat)
    requires Shape(s) && SimpleInv(s) && a < |s.pc| && !DonePc(s.pc[a]) && !WaitPc(s.pc[a])
    ensures SimpleInv(StepBlock(s, a))
  {
    var p := s.pc[a];
    if p.BlockLock? || p.BlockBit? || p.BlockPush? { EnterSimple(s, a); }
    else if p.BlockUnlock? || p.Blocked? || p.BlockCheck? { SleepSimple(s, a); }
    else if SettlePc(p) { SettleSimple(s, a); }
  }

  lemma StepSimple(s: State, e: Event)
    requires Shape(s) && SimpleInv(s)
    ensures SimpleInv(Step(s, e))
  {
    var s' := Step(s, e);
    if e.Add? { assert Claimers(s') == Claimers(s) && Markers(s') == Markers(s); }
    else if e.a < |s.pc| {
      if e.AgentStep? {
        if DonePc(s.pc[e.a]) { DoneSimple(s, e.a); }
        else if WaitPc(s.pc[e.a]) { WaitSimple(s, e.a); }
        else { BlockSimple(s, e.a); }
      } else if s.pc[e.a].Idle? {
        assert HoldsLock(s.pc[e.a]) <==> s.lock == Some(e.a);
        SimpleStill(s, s', e.a, s'.pc[e.a]);
      }
    }
  }

  // ---------- preservation: registrations ----------

  // A step of agent a that moves no registration.
  lemma OnceStill(s: State, s': State, a: nat, p: Pc)
    requires Shape(s) && OnceOk(s) && KindOk(s) && Shape(s') && a < |s.pc| && s'.pc == s.pc[a := p]
    requires s'.list == s.list && s'.blocked == s.blocked && s'.where == s.where
    requires TasksOf(p) == TasksOf(s.pc[a]) && ThreadsOf(p) == ThreadsOf(s.pc[a])
    requires s.where[a] != Nowhere ==> (AsTask(s.pc[a]) ==> AsTask(p)) && (AsThread(s.pc[a]) ==> AsThread(p))
    ensures OnceOk(s') && KindOk(s')
  {
    forall b | 0 <= b < |s'.pc| ensures Holds(s', InHand(s'.pc[b]), InHandOf(b)) {
      assert Holds(s, InHand(s.pc[b]), InHandOf(b));
    }
    assert Registered(s') == Registered(s);
    forall t | t < |s.pc| && (t in s.list || t in s.blocked) ensures s.where[t] != Nowhere {
      assert t in Registered(s);
    }
    forall b, t | 0 <= b < |s.pc| && t < |s.pc| && (t in TasksOf(s.pc[b]) || t in ThreadsOf(s.pc[b]))
      ensures s.where[t] != Nowhere
    {
      assert Holds(s, InHand(s.pc[b]), InHandOf(b)) && t in InHand(s.pc[b]);
    }
  }

  // Agent a, unregistered so far, joins the group.
  lemma OnceJoin(s: State, s': State, a: nat, p: Pc)
    requires Shape(s) && OnceOk(s) && KindOk(s) && Shape(s') && a < |s.pc| && s'.pc == s.pc[a := p]
    requires s.where[a] == Nowhere && s'.where == s.where[a := OnGroup]
    requires TasksOf(p) == TasksOf(s.pc[a]) && ThreadsOf(p) == ThreadsOf(s.pc[a])
    requires || (s'.list == [a] + s.list && s'.blocked == s.blocked && AsTask(p))
             || (s'.list == s.list && s'.blocked == s.blocked + [a] && AsThread(p))
    ensures OnceOk(s') && KindOk(s')
  {
    forall b | 0 <= b < |s'.pc| ensures Holds(s', InHand(s'.pc[b]), InHandOf(b)) {
      assert Holds(s, InHand(s.pc[b]), InHandOf(b));
    }
    JoinRegistered(s, s', a);
    forall b, t | 0 <= b < |s.pc| && t in TasksOf(s.pc[b]) ensures t in InHand(s.pc[b]) {}
    forall b, t | 0 <= b < |s.pc| && t in ThreadsOf(s.pc[b]) ensures t in InHand(s.pc[b]) {}
  }

  lemma JoinRegistered(s: State, s': State, a: nat)
    requires Shape(s) && Shape(s') && |s'.pc| == |s.pc| && a < |s.pc| && Holds(s, Registered(s), OnGroup)
    requires s.where[a] == Nowhere && s'.where == s.where[a := OnGroup]
    requires || (s'.list == [a] + s.list && s'.blocked == s.blocked)
             || (s'.list == s.list && s'.blocked == s.blocked + [a])
    ensures Holds(s', Registered(s'), OnGroup) && a !in s.list && a !in s.blocked
  {
    var r, r' := Registered(s), Registered(s');
    assert a !in r;
    assert r' == s.blocked + [a] + s.list;
    InsertDistinct(s.blocked, s.list, a);
    assert forall t :: t in r' <==> t == a || t in r;
  }

  // A list leaves the group for agent a's hands.
  lemma TakenHolds(s: State, s': State, a: nat, xs: seq<nat>, rest: seq<nat>)
    requires Shape(s) && OnceOk(s) && Shape(s') && a < |s.pc| && |s'.pc| == |s.pc|
    requires s'.where == MoveAll(s.where, xs, InHandOf(a))
    requires Distinct(xs) && Distinct(rest) && (forall t | t in xs :: t !in rest)
    requires forall t :: t in Registered(s) <==> t in xs || t in rest
    ensures Holds(s', rest, OnGroup)
    ensures Holds(s', InHand(s.pc[a]) + xs, InHandOf(a))
    ensures forall b | 0 <= b < |s.pc| && b != a :: Holds(s', InHand(s.pc[b]), InHandOf(b))
  {
    assert forall t | t in xs || t in rest :: t in Registered(s) && t < |s.pc| && s.where[t] == OnGroup;
    assert Holds(s, InHand(s.pc[a]), InHandOf(a));
    DistinctAppend(InHand(s.pc[a]), xs);
    forall b | 0 <= b < |s.pc| && b != a ensures Holds(s', InHand(s.pc[b]), InHandOf(b)) {
      assert Holds(s, InHand(s.pc[b]), InHandOf(b));
    }
  }

  // The kinds of the waiters a taker holds are those they had on the group.
  lemma TakenKinds(s: State, s': State, a: nat, p: Pc)
    requires Shape(s) && KindOk(s) && Shape(s') && a < |s.pc| && s'.pc == s.pc[a := p]
    requires (s'.list == s.list || s'.list == []) && (s'.blocked == s.blocked || s'.blocked == [])
    requires forall t | t in TasksOf(p) :: t in TasksOf(s.pc[a]) || t in s.list
    requires forall t | t in ThreadsOf(p) :: t in ThreadsOf(s.pc[a]) || t in s.blocked
    requires (AsTask(s.pc[a]) ==> AsTask(p)) && !AsThread(s.pc[a])
    ensures KindOk(s')
  {
  }

  lemma TakeTasks(s: State, s': State, a: nat, p: Pc)
    requires Shape(s) && OnceOk(s) && KindOk(s) && Shape(s') && a < |s.pc| && s'.pc == s.pc[a := p]
    requires s'.where == MoveAll(s.where, s.list, InHandOf(a)) && s'.list == [] && s'.blocked == s.blocked
    requires ThreadsOf(p) == ThreadsOf(s.pc[a]) && TasksOf(s.pc[a]) == [] && TasksOf(p) == s.list
    requires (AsTask(s.pc[a]) ==> AsTask(p)) && !AsThread(s.pc[a])
    ensures OnceOk(s') && KindOk(s')
  {
    TakenKinds(s, s', a, p);
    assert InHand(p) == InHand(s.pc[a]) + s.list;
    hide KindOk, InHand, TasksOf, ThreadsOf, AsTask, AsThread;
    SplitDistinct(s.blocked, s.list);
    TakenHolds(s, s', a, s.list, s.blocked);
    assert Registered(s') == s.blocked;
    AllHold(s, s', a, p);
  }

  lemma AllHold(s: State, s': State, a: nat, p: Pc)
    requires Shape(s) && Shape(s') && a < |s.pc| && s'.pc == s.pc[a := p]
    requires Holds(s', Registered(s'), OnGroup) && Holds(s', InHand(p), InHandOf(a))
    requires forall b | 0 <= b < |s.pc| && b != a :: Holds(s', InHand(s.pc[b]), InHandOf(b))
    ensures OnceOk(s')
  {
    hide Holds, InHand;
    forall b | 0 <= b < |s'.pc| ensures Holds(s', InHand(s'.pc[b]), InHandOf(b)) {
      assert b != a ==> Holds(s', InHand(s.pc[b]), InHandOf(b));
    }
  }

  lemma TakeThreads(s: State, s': State, a: nat, p: Pc)
    requires Shape(s) && OnceOk(s) && KindOk(s) && Shape(s') && a < |s.pc| && s'.pc == s.pc[a := p]
    requires s'.where == MoveAll(s.where, s.blocked, InHandOf(a)) && s'.blocked == [] && s'.list == s.list
    requires InHand(s.pc[a]) == [] && ThreadsOf(p) == s.blocked && TasksOf(p) == []
    requires !AsTask(s.pc[a]) && !AsThread(s.pc[a])
    ensures OnceOk(s') && KindOk(s')
  {
    TakenKinds(s, s', a, p);
    assert InHand(p) == InHand(s.pc[a]) + s.blocked;
    hide KindOk, InHand, TasksOf, ThreadsOf, AsTask, AsThread;
    SplitDistinct(s.blocked, s.list);
    TakenHolds(s, s', a, s.blocked, s.list);
    assert Registered(s') == s.list;
    AllHold(s, s', a, p);
  }

  // Agent a wakes the first waiter in its hands.
  lemma OnceWake(s: State, s': State, a: nat, p: Pc, t0: nat)
    requires Shape(s) && OnceOk(s) && KindOk(s) && Shape(s') && a < |s.pc| && s'.pc == s.pc[a := p]
    requires t0 < |s.pc| && InHand(s.pc[a]) == [t0] + InHand(p) && s'.where == s.where[t0 := Nowhere]
    requires s'.list == s.list && s'.blocked == s.blocked
    requires forall t | t in TasksOf(p) :: t in TasksOf(s.pc[a])
    requires forall t | t in ThreadsOf(p) :: t in ThreadsOf(s.pc[a])
    requires (AsTask(s.pc[a]) ==> AsTask(p)) && !AsThread(s.pc[a])
    ensures OnceOk(s') && KindOk(s')
  {
    assert Holds(s, InHand(s.pc[a]), InHandOf(a));
    FirstGone(s, s', InHand(s.pc[a]), InHand(p), t0, InHandOf(a));
    HoldsOthers(s, s', Registered(s), OnGroup, t0);
    forall b | 0 <= b < |s'.pc| && b != a ensures Holds(s', InHand(s'.pc[b]), InHandOf(b)) {
      HoldsOthers(s, s', InHand(s.pc[b]), InHandOf(b), t0);
    }
  }

  // The first of a list is woken; the list goes on without it.
  lemma FirstGone(s: State, s': State, xs: seq<nat>, ys: seq<nat>, t0: nat, w: Where)
    requires Shape(s) && Shape(s') && |s'.pc| == |s.pc| && t0 < |s.pc| && w != Nowhere
    requires Holds(s, xs, w) && xs == [t0] + ys && s'.where == s.where[t0 := Nowhere]
    ensures s.where[t0] == w && Holds(s', ys, w)
  {
    assert xs[0] == t0 && t0 in xs;
    forall i, j | 0 <= i < j < |ys| ensures ys[i] != ys[j] { assert xs[i + 1] != xs[j + 1]; }
    forall t | t in ys ensures t != t0 && t in xs {
      var i :| 0 <= i < |ys| && ys[i] == t;
      assert xs[0] != xs[i + 1] && xs[i + 1] == t;
    }
    assert forall t | t in xs :: t == t0 || t in ys;
  }

  // A list kept elsewhere is not concerned.
  lemma HoldsOthers(s: State, s': State, xs: seq<nat>, w: Where, t0: nat)
    requires Shape(s) && Shape(s') && |s'.pc| == |s.pc| && t0 < |s.pc| && Holds(s, xs, w)
    requires s'.where == s.where[t0 := Nowhere] && s.where[t0] != w && w != Nowhere
    ensures Holds(s', xs, w)
  {
  }

  lemma InsertDistinct(xs: seq<nat>, ys: seq<nat>, a: nat)
    requires Distinct(xs + ys) && a !in xs + ys
    ensures Distinct(xs + [a] + ys)
  {
    SplitDistinct(xs, ys);
    DistinctAppend(xs, [a]);
    DistinctAppend(xs + [a], ys);
  }

  lemma DistinctAppend(xs: seq<nat>, ys: seq<nat>)
    requires Distinct(xs) && Distinct(ys) && forall t | t in ys :: t !in xs
    ensures Distinct(xs + ys)
  {
    forall i, j | 0 <= i < j < |xs + ys| ensures (xs + ys)[i] != (xs + ys)[j] {
      if i < |xs| <= j { assert ys[j - |xs|] in ys && xs[i] in xs; }
    }
  }

  lemma SplitDistinct(xs: seq<nat>, ys: seq<nat>)
    requires Distinct(xs + ys)
    ensures Distinct(xs) && Distinct(ys)
    ensures forall t | t in xs :: t !in ys
  {
    assert forall i | 0 <= i < |xs| :: (xs + ys)[i] == xs[i];
    assert forall i | 0 <= i < |ys| :: (xs + ys)[|xs| + i] == ys[i];
  }

  predicate WaitersOk(s: State)
    requires Shape(s)
  {
    forall t | 0 <= t < |s.pc| :: WaiterOk(s, t)
  }

  predicate RegistrationInv(s: State)
    requires Shape(s)
  {
    OnceOk(s) && KindOk(s) && WaitersOk(s)
  }

  // A completer or a settling waiter has no registration of its own.
  lemma QuietRegistrations(s: State, s': State, a: nat, p: Pc)
    requires Shape(s) && RegistrationInv(s) && a < |s.pc| && Shape(s') && s'.pc == s.pc[a := p]
    requires !AsTask(s.pc[a]) && !AsThread(s.pc[a]) && !AsThread(p)
    requires TasksOf(p) == TasksOf(s.pc[a]) && ThreadsOf(p) == ThreadsOf(s.pc[a])
    requires s'.list == s.list && s'.blocked == s.blocked && s'.where == s.where
    requires s'.joins == s.joins && s'.wakes == s.wakes
    requires forall t | 0 <= t < |s.pc| && t != a :: s'.word[t] == s.word[t]
    requires p.BlockLock? || p.BlockBit? || p.BlockPush? ==> s'.word[a] == WordWaiting
    ensures RegistrationInv(s')
  {
    assert WaiterOk(s, a);
    OnceStill(s, s', a, p);
    StillWaiters(s, s', a, p);
  }

  lemma InHandFirst(s: State, a: nat, xs: seq<nat>, ys: seq<nat>, t0: nat)
    requires Shape(s) && Holds(s, xs, InHandOf(a)) && xs == [t0] + ys
    ensures t0 < |s.pc| && s.where[t0] == InHandOf(a)
  {
    assert xs[0] == t0 && t0 in xs;
  }

  // The first waiter in agent a's hands is woken, as a task or as a thread.
  lemma HandWoken(s: State, s': State, a: nat, p: Pc, t0: nat, thread: bool)
    requires Shape(s) && RegistrationInv(s) && a < |s.pc| && Shape(s') && s'.pc == s.pc[a := p]
    requires InHand(s.pc[a]) == [t0] + InHand(p)
    requires t0 < |s.pc| && s'.where == s.where[t0 := Nowhere] && s'.list == s.list && s'.blocked == s.blocked
    requires s'.joins == s.joins && s'.wakes == s.wakes[t0 := s.wakes[t0] + 1]
    requires if thread then t0 in ThreadsOf(s.pc[a]) && s'.word == s.word[t0 := WordKicked]
             else t0 in TasksOf(s.pc[a]) && s'.word == s.word
    requires forall t | t in TasksOf(p) :: t in TasksOf(s.pc[a])
    requires forall t | t in ThreadsOf(p) :: t in ThreadsOf(s.pc[a])
    requires (AsTask(s.pc[a]) ==> AsTask(p)) && !AsThread(s.pc[a]) && !AsThread(p)
    requires !p.BlockLock? && !p.BlockBit? && !p.BlockPush?
    ensures RegistrationInv(s')
  {
    InHandFirst(s, a, InHand(s.pc[a]), InHand(p), t0);
    OnceWake(s, s', a, p, t0);
    WokenWaiters(s, s', a, p, t0);
  }

  lemma KickRegistrations(s: State, a: nat, threads: seq<nat>, tasks: seq<nat>)
    requires Shape(s) && RegistrationInv(s) && a < |s.pc| && s.pc[a] == Waking(threads, tasks) && threads != []
    ensures RegistrationInv(StepDone(s, a))
  {
    assert InHand(s.pc[a]) == [threads[0]] + InHand(Waking(threads[1..], tasks));
    InHandFirst(s, a, InHand(s.pc[a]), InHand(Waking(threads[1..], tasks)), threads[0]);
    HandWoken(s, StepDone(s, a), a, Waking(threads[1..], tasks), threads[0], true);
  }

  lemma WakeRegistrations(s: State, a: nat, tasks: seq<nat>)
    requires Shape(s) && RegistrationInv(s) && a < |s.pc| && s.pc[a] == Waking([], tasks) && tasks != []
    ensures RegistrationInv(StepDone(s, a))
  {
    assert InHand(s.pc[a]) == [tasks[0]] + InHand(Waking([], tasks[1..]));
    InHandFirst(s, a, InHand(s.pc[a]), InHand(Waking([], tasks[1..])), tasks[0]);
    HandWoken(s, StepDone(s, a), a, Waking([], tasks[1..]), tasks[0], false);
  }

  lemma WakingRegistrations(s: State, a: nat)
    requires Shape(s) && RegistrationInv(s) && a < |s.pc| && s.pc[a].Waking?
    ensures RegistrationInv(StepDone(s, a))
  {
    var Waking(threads, tasks) := s.pc[a];
    if threads != [] { KickRegistrations(s, a, threads, tasks); }
    else if tasks != [] { WakeRegistrations(s, a, tasks); }
    else { QuietRegistrations(s, StepDone(s, a), a, Idle); }
  }

  lemma DoneRegistrations(s: State, a: nat)
    requires Shape(s) && RegistrationInv(s) && a < |s.pc| && DonePc(s.pc[a])
    ensures RegistrationInv(StepDone(s, a))
  {
    if s.pc[a].Waking? { WakingRegistrations(s, a); }
    else if s.pc[a].WakeSwap? || s.pc[a].WakeTake? { TakeRegistrations(s, a); }
    else { QuietDone(s, a); }
  }

  lemma QuietDone(s: State, a: nat)
    requires Shape(s) && RegistrationInv(s) && a < |s.pc| && DonePc(s.pc[a])
    requires !s.pc[a].Waking? && !s.pc[a].WakeSwap? && !s.pc[a].WakeTake?
    ensures RegistrationInv(StepDone(s, a))
  {
    var s' := StepDone(s, a);
    if s' != s { QuietRegistrations(s, s', a, s'.pc[a]); }
  }

  lemma TakeRegistrations(s: State, a: nat)
    requires Shape(s) && RegistrationInv(s) && a < |s.pc| && (s.pc[a].WakeSwap? || s.pc[a].WakeTake?)
    ensures RegistrationInv(StepDone(s, a))
  {
    var s' := StepDone(s, a);
    var p := s'.pc[a];
    assert WaiterOk(s, a);
    if s.pc[a].WakeSwap? {
      TakeThreads(s, s', a, p);
      MovedWaiters(s, s', a, p, s.blocked);
    } else {
      TakeTasks(s, s', a, p);
      MovedWaiters(s, s', a, p, s.list);
    }
  }

  // No registration, wake or wait word changes, and agent a stays consistent with its own.
  lemma StillWaiters(s: State, s': State, a: nat, p: Pc)
    requires Shape(s) && WaitersOk(s) && Shape(s') && a < |s.pc| && s'.pc == s.pc[a := p]
    requires s'.joins == s.joins && s'.wakes == s.wakes && s'.where == s.where
    requires forall t | 0 <= t < |s.pc| && t != a :: s'.word[t] == s.word[t]
    requires WaiterOk(s', a)
    ensures WaitersOk(s')
  {
    forall t | 0 <= t < |s'.pc| ensures WaiterOk(s', t) { if t != a { assert WaiterOk(s, t); } }
  }

  // Registrations move from the group into hands: still one wake owed each.
  lemma MovedWaiters(s: State, s': State, a: nat, p: Pc, xs: seq<nat>)
    requires Shape(s) && OnceOk(s) && WaitersOk(s) && Shape(s') && a < |s.pc| && s'.pc == s.pc[a := p]
    requires s'.joins == s.joins && s'.wakes == s.wakes && s'.word == s.word
    requires s'.where == MoveAll(s.where, xs, InHandOf(a)) && forall t | t in xs :: t in Registered(s)
    requires s.where[a] != Nowhere ==> (AsTask(s.pc[a]) ==> AsTask(p)) && !AsThread(s.pc[a])
    requires !AsThread(p) && !p.BlockLock? && !p.BlockBit? && !p.BlockPush?
    ensures WaitersOk(s')
  {
    forall t | 0 <= t < |s'.pc| ensures WaiterOk(s', t) {
      assert WaiterOk(s, t);
      assert t in xs ==> s.where[t] == OnGroup;
    }
  }

  // One waiter is woken; if it is a thread its word is kicked.
  lemma WokenWaiters(s: State, s': State, a: nat, p: Pc, t0: nat)
    requires Shape(s) && OnceOk(s) && KindOk(s) && WaitersOk(s) && Shape(s') && a < |s.pc| && s'.pc == s.pc[a := p]
    requires t0 < |s.pc| && s.where[t0] == InHandOf(a) && t0 in InHand(s.pc[a])
    requires s'.joins == s.joins && s'.wakes == s.wakes[t0 := s.wakes[t0] + 1] && s'.where == s.where[t0 := Nowhere]
    requires || (t0 in TasksOf(s.pc[a]) && s'.word == s.word)
             || (t0 in ThreadsOf(s.pc[a]) && s'.word == s.word[t0 := WordKicked])
    requires (AsTask(s.pc[a]) ==> AsTask(p)) && !AsThread(s.pc[a]) && !AsThread(p)
    requires !p.BlockLock? && !p.BlockBit? && !p.BlockPush?
    ensures WaitersOk(s')
  {
    forall t | 0 <= t < |s'.pc| ensures WaiterOk(s', t) {
      assert WaiterOk(s, t);
    }
  }

  // A registered agent moves on without touching any registration.
  lemma RegisteredMove(s: State, s': State, a: nat, p: Pc)
    requires Shape(s) && RegistrationInv(s) && a < |s.pc| && Shape(s') && s'.pc == s.pc[a := p]
    requires TasksOf(p) == TasksOf(s.pc[a]) && ThreadsOf(p) == ThreadsOf(s.pc[a])
    requires s'.list == s.list && s'.blocked == s.blocked && s'.where == s.where
    requires s'.joins == s.joins && s'.wakes == s.wakes && s'.word == s.word
    requires (AsTask(s.pc[a]) && AsTask(p)) || (AsThread(s.pc[a]) && AsThread(p))
    ensures RegistrationInv(s')
  {
    assert WaiterOk(s, a);
    OnceStill(s, s', a, p);
    StillWaiters(s, s', a, p);
  }

  // A woken agent leaves.
  lemma WokenMove(s: State, s': State, a: nat, p: Pc)
    requires Shape(s) && RegistrationInv(s) && a < |s.pc| && Shape(s') && s'.pc == s.pc[a := p]
    requires s.where[a] == Nowhere && (p.Idle? || p.BlockCheck?)
    requires TasksOf(s.pc[a]) == [] && ThreadsOf(s.pc[a]) == []
    requires s'.list == s.list && s'.blocked == s.blocked && s'.where == s.where
    requires s'.joins == s.joins && s'.wakes == s.wakes && s'.word == s.word
    ensures RegistrationInv(s')
  {
    assert WaiterOk(s, a);
    OnceStill(s, s', a, p);
    StillWaiters(s, s', a, p);
  }

  lemma DirectTakes(s: State, a: nat)
    requires Shape(s) && RegistrationInv(s) && a < |s.pc| && s.pc[a].DirectTake?
    ensures RegistrationInv(StepWait(s, a))
  {
    var s' := StepWait(s, a);
    var p := if s.list == [] then Suspended else DirectBit(s.list);
    TakeTasks(s, s', a, p);
    MovedWaiters(s, s', a, p, s.list);
  }

  lemma DirectWakesFirst(s: State, a: nat, tasks: seq<nat>)
    requires Shape(s) && RegistrationInv(s) && a < |s.pc| && s.pc[a] == DirectWake(tasks) && tasks != []
    ensures RegistrationInv(StepWait(s, a))
  {
    assert InHand(s.pc[a]) == [tasks[0]] + InHand(DirectWake(tasks[1..]));
    InHandFirst(s, a, InHand(s.pc[a]), InHand(DirectWake(tasks[1..])), tasks[0]);
    HandWoken(s, StepWait(s, a), a, DirectWake(tasks[1..]), tasks[0], false);
  }

  lemma DirectWakes(s: State, a: nat)
    requires Shape(s) && RegistrationInv(s) && a < |s.pc| && s.pc[a].DirectWake?
    ensures RegistrationInv(StepWait(s, a))
  {
    var tasks := s.pc[a].tasks;
    if tasks != [] { DirectWakesFirst(s, a, tasks); }
    else { RegisteredMove(s, StepWait(s, a), a, Suspended); }
  }

  lemma ListRegistrations(s: State, a: nat)
    requires Shape(s) && RegistrationInv(s) && a < |s.pc| && s.pc[a].ListCas?
    ensures RegistrationInv(StepWait(s, a))
  {
    var s' := StepWait(s, a);
    assert WaiterOk(s, a);
    if First(s.list) == s.pc[a].head {
      OnceJoin(s, s', a, ListBit);
      JoinedWaiters(s, s', a, ListBit);
    } else { QuietRegistrations(s, s', a, ListCas(First(s.list))); }
  }

  lemma WaitRegistrations(s: State, a: nat)
    requires Shape(s) && RegistrationInv(s) && a < |s.pc| && WaitPc(s.pc[a])
    ensures RegistrationInv(StepWait(s, a))
  {
    var s' := StepWait(s, a);
    match s.pc[a]
    case ListCas(_) => ListRegistrations(s, a);
    case DirectTake => DirectTakes(s, a);
    case DirectWake(_) => DirectWakes(s, a);
    case Suspended =>
      if s.wakes[a] == s.joins[a] {
        assert WaiterOk(s, a);
        WokenMove(s, s', a, Idle);
      }
    case ListBit => RegisteredMove(s, s', a, if s.count == 0 then DirectTake else Suspended);
    case DirectBit(tasks) => RegisteredMove(s, s', a, DirectWake(tasks));
  }

  lemma JoinedWaiters(s: State, s': State, a: nat, p: Pc)
    requires Shape(s) && WaitersOk(s) && Shape(s') && a < |s.pc| && s'.pc == s.pc[a := p]
    requires s.where[a] == Nowhere && s'.where == s.where[a := OnGroup]
    requires s'.joins == s.joins[a := s.joins[a] + 1] && s'.wakes == s.wakes && s'.word == s.word
    requires AsTask(p) || (AsThread(p) && s.word[a] == WordWaiting)
    ensures WaitersOk(s')
  {
    assert WaiterOk(s, a);
    forall t | 0 <= t < |s'.pc| ensures WaiterOk(s', t) { assert WaiterOk(s, t); }
  }

  lemma BlockRegistrations(s: State, a: nat)
    requires Shape(s) && RegistrationInv(s) && a < |s.pc| && !DonePc(s.pc[a]) && !WaitPc(s.pc[a])
    ensures RegistrationInv(StepBlock(s, a))
  {
    var s' := StepBlock(s, a);
    var p := s'.pc[a];
    if s.pc[a].BlockPush? {
      assert WaiterOk(s, a);
      OnceJoin(s, s', a, p);
      JoinedWaiters(s, s', a, p);
    } else if s.pc[a].BlockUnlock? { RegisteredMove(s, s', a, p); }
    else if s.pc[a].Blocked? {
      assert WaiterOk(s, a);
      if p.BlockCheck? { WokenMove(s, s', a, p); }
    } else if SettlePc(s.pc[a]) { SettleQuiet(s, a); }
    else if s.pc[a].BlockBit? || s.pc[a].BlockCheck? || s.pc[a].BlockLock? { EnterQuiet(s, a); }
  }

  lemma SettleFrame(s: State, a: nat)
    requires Shape(s) && a < |s.pc| && SettlePc(s.pc[a])
    ensures var s' := StepBlock(s, a);
            && s'.pc == s.pc[a := s'.pc[a]] && (SettlePc(s'.pc[a]) || s'.pc[a].Settled?)
            && s'.list == s.list && s'.blocked == s.blocked && s'.where == s.where && s'.word == s.word
            && s'.joins == s.joins && s'.wakes == s.wakes
  {
    assert s.pc == s.pc[a := s.pc[a]];
  }

  lemma SettleQuiet(s: State, a: nat)
    requires Shape(s) && RegistrationInv(s) && a < |s.pc| && SettlePc(s.pc[a])
    ensures RegistrationInv(StepBlock(s, a))
  {
    SettleFrame(s, a);
    QuietRegistrations(s, StepBlock(s, a), a, StepBlock(s, a).pc[a]);
  }

  lemma EnterQuiet(s: State, a: nat)
    requires Shape(s) && RegistrationInv(s) && a < |s.pc|
    requires s.pc[a].BlockBit? || s.pc[a].BlockCheck? || s.pc[a].BlockLock?
    ensures RegistrationInv(StepBlock(s, a))
  {
    var s' := StepBlock(s, a);
    assert WaiterOk(s, a);
    if s' != s { QuietRegistrations(s, s', a, s'.pc[a]); }
  }

  lemma AddRegistrations(s: State)
    requires Shape(s) && RegistrationInv(s)
    ensures RegistrationInv(Step(s, Add))
  {
    var s' := Step(s, Add);
    assert Holds(s', Registered(s'), OnGroup);
    forall b | 0 <= b < |s'.pc| ensures Holds(s', InHand(s'.pc[b]), InHandOf(b)) {
      assert Holds(s, InHand(s.pc[b]), InHandOf(b));
    }
    forall t | 0 <= t < |s'.pc| ensures WaiterOk(s', t) { assert WaiterOk(s, t); }
  }

  lemma BeginRegistrations(s: State, e: Event)
    requires Shape(s) && RegistrationInv(s) && !e.Add? && !e.AgentStep? && e.a < |s.pc|
    ensures RegistrationInv(Step(s, e))
  {
    var s' := Step(s, e);
    assert WaiterOk(s, e.a);
    if s.pc[e.a].Idle? && !s'.pc[e.a].Idle? {
      OnceStill(s, s', e.a, s'.pc[e.a]);
      StillWaiters(s, s', e.a, s'.pc[e.a]);
    }
  }

  lemma StepRegistrations(s: State, e: Event)
    requires Shape(s) && RegistrationInv(s)
    ensures RegistrationInv(Step(s, e))
  {
    if e.Add? { AddRegistrations(s); }
    else if e.a < |s.pc| {
      if !e.AgentStep? { BeginRegistrations(s, e); }
      else if DonePc(s.pc[e.a]) { DoneRegistrations(s, e.a); }
      else if WaitPc(s.pc[e.a]) { WaitRegistrations(s, e.a); }
      else { BlockRegistrations(s, e.a); }
    }
  }

  // ---------- preservation: a wake comes ----------


  // Coming wakes survive a step of agent a that neither empties the count nor clears the bit early,
  // and that keeps a's own promise.
  lemma ComingKept(s: State, s': State, a: nat, p: Pc)
    requires a < |s.pc| && s'.pc == s.pc[a := p]
    requires s.count > 0 && s.bit ==> (s'.count > 0 && s'.bit) || p.WakeLock?
    requires WillTakeTasks(s.pc[a]) ==> WillTakeTasks(p) || (s'.count > 0 && s'.bit)
    requires WillTakeThreads(s.pc[a]) ==> WillTakeThreads(p)
    ensures TasksComing(s) ==> TasksComing(s')
    ensures ThreadsComing(s) ==> ThreadsComing(s')
  {
    assert s'.pc[a] == p;
    if TasksComing(s) && !(s.count > 0 && s.bit) {
      var b :| 0 <= b < |s.pc| && WillTakeTasks(s.pc[b]);
      if b != a { assert s'.pc[b] == s.pc[b]; }
    }
    if ThreadsComing(s) && !(s.count > 0 && s.bit) {
      var b :| 0 <= b < |s.pc| && WillTakeThreads(s.pc[b]);
      if b != a { assert s'.pc[b] == s.pc[b]; }
    }
  }

  lemma NoNewPusher(s: State, s': State, a: nat, p: Pc)
    requires a < |s.pc| && s'.pc == s.pc[a := p] && !p.BlockPush?
    ensures PushesThread(s') ==> PushesThread(s)
  {
    if PushesThread(s') {
      var b :| 0 <= b < |s'.pc| && s'.pc[b].BlockPush?;
      assert s.pc[b].BlockPush?;
    }
  }

  lemma DoneComes(s: State, a: nat)
    requires Shape(s) && SimpleInv(s) && WakeComes(s) && a < |s.pc| && DonePc(s.pc[a])
    ensures WakeComes(StepDone(s, a))
  {
    var s' := StepDone(s, a);
    var p := s'.pc[a];
    NoNewPusher(s, s', a, p);
    if s.pc[a].WakeSwap? {
      // The threads are out; the list is still to be taken by this very agent.
      assert WillTakeTasks(s'.pc[a]);
      NobodyPushesUnderLock(s, a);
    } else if s.pc[a].WakeTake? {
      assert s'.list == [];
      ThreadsStillComing(s, s', a, p);
    } else {
      assert SawZero(s.pc[a]) ==> s.count == 0;
      ComingKept(s, s', a, p);
    }
  }

  // Only one agent is inside the lock.
  lemma NobodyPushesUnderLock(s: State, a: nat)
    requires LockOk(s) && a < |s.pc| && HoldsLock(s.pc[a]) && !s.pc[a].BlockPush?
    ensures !PushesThread(s)
  {
    forall b | 0 <= b < |s.pc| ensures !s.pc[b].BlockPush? {
      assert HoldsLock(s.pc[b]) <==> s.lock == Some(b);
    }
  }

  lemma ThreadsStillComing(s: State, s': State, a: nat, p: Pc)
    requires a < |s.pc| && s'.pc == s.pc[a := p] && !WillTakeThreads(s.pc[a])
    requires s'.count == s.count && s'.bit == s.bit
    ensures ThreadsComing(s) ==> ThreadsComing(s')
  {
    if ThreadsComing(s) && !(s.count > 0 && s.bit) {
      var b :| 0 <= b < |s.pc| && WillTakeThreads(s.pc[b]);
      assert s'.pc[b] == s.pc[b];
    }
  }

  lemma WaitComes(s: State, a: nat)
    requires Shape(s) && SimpleInv(s) && WakeComes(s) && a < |s.pc| && WaitPc(s.pc[a])
    ensures WakeComes(StepWait(s, a))
  {
    var s' := StepWait(s, a);
    var p := s'.pc[a];
    NoNewPusher(s, s', a, p);
    if s.pc[a].DirectTake? {
      assert s'.list == [];
      ThreadsStillComing(s, s', a, p);
    } else {
      assert SawZero(s.pc[a]) ==> s.count == 0;
      ComingKept(s, s', a, p);
      if p.ListBit? { assert WillTakeTasks(s'.pc[a]); }
    }
  }

  // What a step of a blocking waiter leaves alone.
  lemma BlockMoves(s: State, a: nat)
    requires Shape(s) && a < |s.pc| && !DonePc(s.pc[a]) && !WaitPc(s.pc[a])
    ensures var s' := StepBlock(s, a);
            && s'.pc == s.pc[a := s'.pc[a]] && s'.count == s.count && s'.list == s.list && (s.bit ==> s'.bit)
            && (!s.pc[a].BlockPush? ==> s'.blocked == s.blocked)
            && (s'.pc[a].BlockPush? ==> (s.pc[a].BlockBit? && s'.count > 0 && s'.bit) || s.pc[a].BlockPush?)
  {
    assert s.pc == s.pc[a := s.pc[a]];
    match s.pc[a]
    case BlockPush =>
    case BlockBit =>
    case _ =>
  }

  lemma BlockComes(s: State, a: nat)
    requires Shape(s) && WakeComes(s) && a < |s.pc| && !DonePc(s.pc[a]) && !WaitPc(s.pc[a])
    ensures WakeComes(StepBlock(s, a))
  {
    BlockMoves(s, a);
    var s' := StepBlock(s, a);
    ComingKept(s, s', a, s'.pc[a]);
    if s.pc[a].BlockPush? { assert PushesThread(s); }
    if !s'.pc[a].BlockPush? { NoNewPusher(s, s', a, s'.pc[a]); }
  }

  lemma StepComes(s: State, e: Event)
    requires Shape(s) && SimpleInv(s) && WakeComes(s)
    ensures WakeComes(Step(s, e))
  {
    var s' := Step(s, e);
    if e.Add? { assert TasksComing(s) ==> TasksComing(s'); assert ThreadsComing(s) ==> ThreadsComing(s'); }
    else if e.a < |s.pc| {
      if e.AgentStep? {
        if DonePc(s.pc[e.a]) { DoneComes(s, e.a); }
        else if WaitPc(s.pc[e.a]) { WaitComes(s, e.a); }
        else { BlockComes(s, e.a); }
      } else if s.pc[e.a].Idle? {
        ComingKept(s, s', e.a, s'.pc[e.a]);
        NoNewPusher(s, s', e.a, s'.pc[e.a]);
      }
    }
  }

  // ---------- preservation: settling ----------

  lemma NoMarks(s: State)
    requires CountsOk(s) && s.waking == 0
    ensures forall b | 0 <= b < |s.pc| :: !Mark(s.pc[b])
  {
    forall b | 0 <= b < |s.pc| ensures !Mark(s.pc[b]) {
      assert Markers(s) == {};
      assert b !in Markers(s);
    }
  }

  // A step of agent a to p once the count is zero: no completer starts, a waiter passes the spin only
  // with no mark up and the lock only with nobody inside.
  predicate SettlingMove(s: State, a: nat, p: Pc)
    requires a < |s.pc|
  {
    && (Mark(p) ==> Mark(s.pc[a]) || s.count > 0)
    && (p.WakeUnlock? ==> s.pc[a].WakeUnmark? || s.pc[a].WakeUnlock?)
    && (PastSpin(p) ==> PastSpin(s.pc[a]) || (s.pc[a].SettleSpin? && s.waking == 0))
    && (PastLock(p) ==> PastLock(s.pc[a]) || (s.pc[a].SettleLock? && s.lock.None?))
  }

  lemma SettleKept(s: State, s': State, a: nat, p: Pc)
    requires SimpleInv(s) && SettleOk(s) && a < |s.pc| && s'.pc == s.pc[a := p] && SettlingMove(s, a, p)
    ensures SettleOk(s')
  {
    if s.waking == 0 { NoMarks(s); }
    forall x, b | 0 <= x < |s'.pc| && 0 <= b < |s'.pc| && PastSpin(s'.pc[x]) ensures !Mark(s'.pc[b]) {
      if PastSpin(s.pc[x]) {
        assert SawZero(s.pc[x]);
        assert !Mark(s.pc[b]);
      } else {
        assert x == a && !Mark(s.pc[b]) && SawZero(s.pc[a]);
      }
    }
    forall x, b | 0 <= x < |s'.pc| && 0 <= b < |s'.pc| && PastLock(s'.pc[x]) ensures !s'.pc[b].WakeUnlock? {
      if PastLock(s.pc[x]) {
        assert !s.pc[b].WakeUnlock? && !Mark(s.pc[b]);
      } else {
        assert PastSpin(s.pc[a]) && !Mark(s.pc[b]);
        assert HoldsLock(s.pc[b]) <==> s.lock == Some(b);
      }
    }
  }

  lemma DoneSettle(s: State, a: nat)
    requires Shape(s) && SimpleInv(s) && SettleOk(s) && a < |s.pc| && DonePc(s.pc[a])
    ensures SettleOk(StepDone(s, a))
  {
    SettleKept(s, StepDone(s, a), a, StepDone(s, a).pc[a]);
  }

  lemma SettlerSettles(s: State, a: nat)
    requires Shape(s) && SimpleInv(s) && SettleOk(s) && a < |s.pc| && SettlePc(s.pc[a])
    ensures SettleOk(StepBlock(s, a))
  {
    SettleKept(s, StepBlock(s, a), a, StepBlock(s, a).pc[a]);
  }

  lemma BlockSettle(s: State, a: nat)
    requires Shape(s) && SimpleInv(s) && SettleOk(s) && a < |s.pc| && !DonePc(s.pc[a]) && !WaitPc(s.pc[a])
    ensures SettleOk(StepBlock(s, a))
  {
    if SettlePc(s.pc[a]) { SettlerSettles(s, a); }
    else { SettleKept(s, StepBlock(s, a), a, StepBlock(s, a).pc[a]); }
  }

  lemma AgentSettle(s: State, a: nat)
    requires Shape(s) && SimpleInv(s) && SettleOk(s) && a < |s.pc|
    ensures SettleOk(Step(s, AgentStep(a)))
  {
    if DonePc(s.pc[a]) { DoneSettle(s, a); }
    else if WaitPc(s.pc[a]) { SettleKept(s, StepWait(s, a), a, StepWait(s, a).pc[a]); }
    else { BlockSettle(s, a); }
  }

  lemma StepSettle(s: State, e: Event)
    requires Shape(s) && SimpleInv(s) && SettleOk(s)
    ensures SettleOk(Step(s, e))
  {
    if !e.Add? && e.a < |s.pc| {
      if e.AgentStep? { AgentSettle(s, e.a); }
      else if s.pc[e.a].Idle? { SettleKept(s, Step(s, e), e.a, Step(s, e).pc[e.a]); }
    }
  }

  // ---------- whole runs ----------

  /** Every step of every agent keeps the invariant. */
  lemma StepInv(s: State, e: Event)
    requires Inv(s)
    ensures Inv(Step(s, e))
  {
    StepSimple(s, e);
    StepRegistrations(s, e);
    StepComes(s, e);
    StepSettle(s, e);
  }

  lemma InitInv(count: nat, agents: nat)
    ensures Inv(Init(count, agents))
  {
    var s := Init(count, agents);
    assert Claimers(s) == {} && Markers(s) == {};
    forall a | 0 <= a < |s.pc| ensures Holds(s, InHand(s.pc[a]), InHandOf(a)) {}
  }

  lemma {:induction false} RunInv(count: nat, agents: nat, events: seq<Event>)
    ensures Inv(Run(Init(count, agents), events))
  {
    if events == [] { InitInv(count, agents); }
    else {
      RunInv(count, agents, events[..|events| - 1]);
      StepInv(Run(Init(count, agents), events[..|events| - 1]), events[|events| - 1]);
    }
  }

  /** Woken at most once: in every run each registration has been woken once, or is owed exactly one
      wake and is on the group or in one waker's hands. */
  lemma WokenAtMostOnce(count: nat, agents: nat, events: seq<Event>, t: nat)
    requires t < |Run(Init(count, agents), events).pc|
    ensures var s := Run(Init(count, agents), events);
            && s.wakes[t] <= s.joins[t] <= s.wakes[t] + 1
            && (s.joins[t] == s.wakes[t] + 1 <==>
                  t in Registered(s) || exists a :: 0 <= a < |s.pc| && t in InHand(s.pc[a]))
  {
    RunInv(count, agents, events);
    var s := Run(Init(count, agents), events);
    assert WaiterOk(s, t);
    if s.where[t].InHandOf? {
      assert Holds(s, InHand(s.pc[s.where[t].a]), InHandOf(s.where[t].a));
    }
    forall a | 0 <= a < |s.pc| && t in InHand(s.pc[a]) ensures s.where[t] != Nowhere {
      assert Holds(s, InHand(s.pc[a]), InHandOf(a));
    }
  }

  // The two program counters that wake.
  lemma DoneWakes(s: State, a: nat)
    requires Shape(s) && a < |s.pc| && !s.pc[a].Waking?
    ensures StepDone(s, a).wakes == s.wakes
  {}

  lemma WaitWakes(s: State, a: nat)
    requires Shape(s) && a < |s.pc| && !s.pc[a].DirectWake?
    ensures StepWait(s, a).wakes == s.wakes
  {}

  lemma BlockWakes(s: State, a: nat)
    requires Shape(s) && a < |s.pc|
    ensures StepBlock(s, a).wakes == s.wakes
  {}

  /** Never early: whatever step wakes somebody, the count is zero. */
  lemma NoEarlyWake(count: nat, agents: nat, events: seq<Event>, e: Event)
    requires var s := Run(Init(count, agents), events); Step(s, e).wakes != s.wakes
    ensures Run(Init(count, agents), events).count == 0
  {
    RunInv(count, agents, events);
    var s := Run(Init(count, agents), events);
    if e.AgentStep? && e.a < |s.pc| && !s.pc[e.a].Waking? && !s.pc[e.a].DirectWake? {
      DoneWakes(s, e.a);
      WaitWakes(s, e.a);
      BlockWakes(s, e.a);
    }
    else if e.AgentStep? && e.a < |s.pc| { assert SawZero(s.pc[e.a]); }
  }

  // Nobody is in the middle of a completion, a registration or a wake.
  predicate Quiet(s: State) {
    forall a | 0 <= a < |s.pc| ::
      || s.pc[a].Idle? || s.pc[a].Suspended? || s.pc[a].Blocked? || s.pc[a].BlockCheck?
      || s.pc[a].SettleSpin? || s.pc[a].SettleLock? || s.pc[a].Settled?
  }

  lemma QuietWaiter(s: State, t: nat)
    requires Shape(s) && OnceOk(s) && Quiet(s) && s.list == [] && s.blocked == [] && t < |s.pc| && WaiterOk(s, t)
    ensures s.wakes[t] == s.joins[t] && (s.pc[t].Blocked? ==> s.word[t] != WordWaiting)
  {
    assert Registered(s) == [];
    forall a | 0 <= a < |s.pc| ensures s.where[t] != InHandOf(a) {
      assert Holds(s, InHand(s.pc[a]), InHandOf(a));
    }
  }

  /** None forgotten: once the count is zero and every completion and registration has finished, nobody
      is registered, every registration has been woken, and no wait word is still waiting. */
  lemma NoneForgotten(count: nat, agents: nat, events: seq<Event>)
    requires var s := Run(Init(count, agents), events); s.count == 0 && Quiet(s)
    ensures var s := Run(Init(count, agents), events);
            && s.list == [] && s.blocked == []
            && (forall t | 0 <= t < |s.pc| :: s.wakes[t] == s.joins[t])
            && (forall t | 0 <= t < |s.pc| && s.pc[t].Blocked? :: s.word[t] != WordWaiting)
  {
    RunInv(count, agents, events);
    var s := Run(Init(count, agents), events);
    assert !TasksComing(s) && !ThreadsComing(s);
    forall t | 0 <= t < |s.pc|
      ensures s.wakes[t] == s.joins[t] && (s.pc[t].Blocked? ==> s.word[t] != WordWaiting)
    {
      QuietWaiter(s, t);
    }
  }

  // A completer that will still read or write the group.
  predicate TouchesGroup(p: Pc) {
    Mark(p) || p.WakeUnlock?
  }

  predicate CompletersGone(s: State) {
    forall a | 0 <= a < |s.pc| :: !TouchesGroup(s.pc[a])
  }

  /** Settled means safe: once a waiter has settled, no completer has any access to the group left, in
      this state and, by the next lemma, in every later one. */
  lemma SettledMeansGone(count: nat, agents: nat, events: seq<Event>, a: nat)
    requires var s := Run(Init(count, agents), events); a < |s.pc| && s.pc[a].Settled?
    ensures var s := Run(Init(count, agents), events); s.count == 0 && CompletersGone(s)
  {
    RunInv(count, agents, events);
    var s := Run(Init(count, agents), events);
    assert SawZero(s.pc[a]) && PastLock(s.pc[a]) && PastSpin(s.pc[a]);
  }

  lemma DoneStaysOut(s: State, a: nat)
    requires Shape(s) && a < |s.pc| && DonePc(s.pc[a]) && !TouchesGroup(s.pc[a])
    ensures !TouchesGroup(StepDone(s, a).pc[a]) && StepDone(s, a).count == s.count
  {}

  lemma WaiterStaysOut(s: State, a: nat)
    requires Shape(s) && a < |s.pc| && WaitPc(s.pc[a])
    ensures !TouchesGroup(StepWait(s, a).pc[a]) && StepWait(s, a).count == s.count
  {}

  lemma SettlerStaysOut(s: State, a: nat)
    requires Shape(s) && a < |s.pc| && SettlePc(s.pc[a])
    ensures !TouchesGroup(StepBlock(s, a).pc[a]) && StepBlock(s, a).count == s.count
  {}

  lemma BlockerStaysOut(s: State, a: nat)
    requires Shape(s) && a < |s.pc| && !DonePc(s.pc[a]) && !WaitPc(s.pc[a])
    ensures !TouchesGroup(StepBlock(s, a).pc[a]) && StepBlock(s, a).count == s.count
  {
    if SettlePc(s.pc[a]) { SettlerStaysOut(s, a); }
    else if s.pc[a].Idle? || s.pc[a].Settled? { assert StepBlock(s, a) == s; }
  }

  lemma DoneMoves(s: State, a: nat)
    requires Shape(s) && a < |s.pc|
    ensures StepDone(s, a).pc == s.pc[a := StepDone(s, a).pc[a]]
  {
    assert s.pc == s.pc[a := s.pc[a]];
  }

  lemma WaitMoves(s: State, a: nat)
    requires Shape(s) && a < |s.pc|
    ensures StepWait(s, a).pc == s.pc[a := StepWait(s, a).pc[a]]
  {
    assert s.pc == s.pc[a := s.pc[a]];
  }

  lemma OthersStay(s: State, e: Event, b: nat)
    requires Shape(s) && !e.Add? && e.a < |s.pc| && b < |s.pc| && b != e.a
    ensures Step(s, e).pc[b] == s.pc[b]
  {
    if e.AgentStep? {
      if DonePc(s.pc[e.a]) { DoneMoves(s, e.a); }
      else if WaitPc(s.pc[e.a]) { WaitMoves(s, e.a); }
      else { BlockMoves(s, e.a); }
    }
  }

  lemma MoverStaysOut(s: State, e: Event)
    requires Shape(s) && s.count == 0 && !e.Add? && e.a < |s.pc| && !TouchesGroup(s.pc[e.a])
    ensures Step(s, e).count == 0 && !TouchesGroup(Step(s, e).pc[e.a])
  {
    if e.AgentStep? {
      if DonePc(s.pc[e.a]) { DoneStaysOut(s, e.a); }
      else if WaitPc(s.pc[e.a]) { WaiterStaysOut(s, e.a); }
      else { BlockerStaysOut(s, e.a); }
    }
  }

  /** With the count at zero, "no completer inside" is stable. */
  lemma GoneStaysGone(s: State, e: Event)
    requires Shape(s) && s.count == 0 && CompletersGone(s)
    ensures Step(s, e).count == 0 && CompletersGone(Step(s, e))
  {
    var s' := Step(s, e);
    if !e.Add? && e.a < |s.pc| {
      assert !TouchesGroup(s.pc[e.a]);
      MoverStaysOut(s, e);
      forall b | 0 <= b < |s'.pc| ensures !TouchesGroup(s'.pc[b]) {
        if b != e.a { OthersStay(s, e, b); }
      }
    }
  }

  /** The exact condition, which is the one Settle waits for: with the count at zero the completers are
      gone if and only if no mark is up and the lock is not held by a completer.  Settle's spin reads the
      first half; taking the mutex observes the second, since it succeeds only with the lock free, and
      with the lock free the mark alone decides. */
  lemma GoneIffUnmarkedAndUnlocked(s: State)
    requires Inv(s) && s.count == 0
    ensures CompletersGone(s) <==>
              s.waking == 0 && !(s.lock.Some? && s.lock.value < |s.pc| && DonePc(s.pc[s.lock.value]))
    ensures s.lock.None? ==> (CompletersGone(s) <==> s.waking == 0)
  {
    if s.waking == 0 {
      NoMarks(s);
      forall a | 0 <= a < |s.pc| && s.pc[a].WakeUnlock? ensures s.lock == Some(a) {
        assert HoldsLock(s.pc[a]) <==> s.lock == Some(a);
      }
    } else {
      var a :| a in Markers(s);
      assert TouchesGroup(s.pc[a]);
    }
  }

  // Agent 0 completes the only unit; agent 1 waits as a task and registers after the decrement, so it
  // takes the list and wakes itself.
  const SELF_WOKEN: seq<Event> :=
    [BeginDone(0), AgentStep(0), BeginWait(1), AgentStep(1), AgentStep(1), AgentStep(1), AgentStep(1), AgentStep(1),
     AgentStep(1), AgentStep(1)]

  // The state in which agent 0 owes its last write and agent 1 is at p.
  function Stopped(bit: bool, list: seq<nat>, p: Pc, joins: nat, wakes: nat, w: Where): State {
    State(0, bit, 1, None, list, [], [WordRunning, WordRunning], 0, [Unmark, p], [0, joins], [0, wakes], [Nowhere, w])
  }

  lemma RunSnoc(s: State, events: seq<Event>, e: Event)
    requires Shape(s)
    ensures Run(s, events + [e]) == Step(Run(s, events), e)
  {
    assert (events + [e])[..|events|] == events;
  }

  // The completer announced, and nobody else begun.
  const ANNOUNCED: State :=
    State(1, false, 1, None, [], [], [WordRunning, WordRunning], 1, [Marked, Idle], [0, 0], [0, 0], [Nowhere, Nowhere])

  lemma SelfWokenAnnounced()
    ensures Step(Init(1, 2), BeginDone(0)) == ANNOUNCED
  {
    var s := Step(Init(1, 2), BeginDone(0));
    assert s.pc == [Marked, Idle] && s.word == [WordRunning, WordRunning];
    assert s.joins == [0, 0] && s.wakes == [0, 0] && s.where == [Nowhere, Nowhere];
  }

  lemma SelfWokenDone()
    ensures Run(Init(1, 2), SELF_WOKEN[..2]) == Stopped(false, [], Idle, 0, 0, Nowhere)
  {
    var s0 := Init(1, 2);
    SelfWokenAnnounced();
    RunSnoc(s0, [], BeginDone(0));
    RunSnoc(s0, [BeginDone(0)], AgentStep(0));
    assert [] + [BeginDone(0)] == [BeginDone(0)];
    assert SELF_WOKEN[..2] == [BeginDone(0)] + [AgentStep(0)];
    assert Step(ANNOUNCED, AgentStep(0)) == Stopped(false, [], Idle, 0, 0, Nowhere);
  }

  lemma SelfWokenStart()
    ensures Run(Init(1, 2), SELF_WOKEN[..4]) == Stopped(false, [1], ListBit, 1, 0, OnGroup)
  {
    SelfWokenDone();
    var s0 := Init(1, 2);
    var es := SELF_WOKEN;
    RunSnoc(s0, es[..2], es[2]);
    assert es[..3] == es[..2] + [es[2]];
    assert Run(s0, es[..3]) == Stopped(false, [], ListCas(None), 0, 0, Nowhere);
    RunSnoc(s0, es[..3], es[3]);
    assert es[..4] == es[..3] + [es[3]];
  }

  lemma SelfWokenMiddle()
    ensures Run(Init(1, 2), SELF_WOKEN[..7]) == Stopped(false, [], DirectWake([1]), 1, 0, InHandOf(1))
  {
    SelfWokenStart();
    var s0 := Init(1, 2);
    var es := SELF_WOKEN;
    RunSnoc(s0, es[..4], es[4]);
    assert es[..5] == es[..4] + [es[4]];
    assert Run(s0, es[..5]) == Stopped(true, [1], DirectTake, 1, 0, OnGroup);
    RunSnoc(s0, es[..5], es[5]);
    assert es[..6] == es[..5] + [es[5]];
    assert MoveAll([Nowhere, OnGroup], [1], InHandOf(1)) == [Nowhere, InHandOf(1)];
    assert Run(s0, es[..6]) == Stopped(true, [], DirectBit([1]), 1, 0, InHandOf(1));
    RunSnoc(s0, es[..6], es[6]);
    assert es[..7] == es[..6] + [es[6]];
  }

  lemma SelfWokenRun()
    ensures Run(Init(1, 2), SELF_WOKEN) == Stopped(false, [], Idle, 1, 1, Nowhere)
  {
    SelfWokenMiddle();
    var s0 := Init(1, 2);
    var es := SELF_WOKEN;
    RunSnoc(s0, es[..7], es[7]);
    var one: seq<nat> := [1];
    assert one[1..] == [];
    assert es[..8] == es[..7] + [es[7]];
    assert Run(s0, es[..8]) == Stopped(false, [], DirectWake([]), 1, 1, Nowhere);
    RunSnoc(s0, es[..8], es[8]);
    assert es[..9] == es[..8] + [es[8]];
    assert Run(s0, es[..9]) == Stopped(false, [], Suspended, 1, 1, Nowhere);
    RunSnoc(s0, es[..9], es[9]);
    assert es == es[..9] + [es[9]];
  }

  /** Being woken is not being settled: a task waiter (the fiber path of WaitFor, which does not call
      Settle) can have been woken and have returned while a completer still has to write `waking`. */
  lemma WokenIsNotSettled()
    ensures var s := Run(Init(1, 2), SELF_WOKEN);
            && |s.pc| == 2 && s.pc[1].Idle? && s.joins[1] == 1 && s.wakes[1] == 1
            && s.count == 0 && s.pc[0].Unmark? && !CompletersGone(s)
  {
    SelfWokenRun();
    assert TouchesGroup(Unmark);
  }

  // ---------- what the calls of a run add up to ----------

  // A unit is added, or announced as done, or taken off the count.
  datatype Kind = Added | Announced | Finished

  predicate Is(k: Kind, s: State, e: Event) {
    match k
    case Added => e.Add? && s.count > 0
    case Announced => e.BeginDone? && e.a < |s.pc| && s.pc[e.a].Idle? && s.claimed < s.count
    case Finished => e.AgentStep? && e.a < |s.pc| && s.pc[e.a].Marked?
  }

  function Times(k: Kind, s: State, events: seq<Event>): nat
    requires Shape(s)
  {
    if events == [] then 0
    else
      var before := events[..|events| - 1];
      Times(k, s, before) + if Is(k, Run(s, before), events[|events| - 1]) then 1 else 0
  }

  lemma DoneCounts(s: State, a: nat)
    requires Shape(s) && CountsOk(s) && a < |s.pc|
    ensures var s' := StepDone(s, a);
            if s.pc[a].Marked? then s'.count == s.count - 1 && s'.claimed == s.claimed - 1
            else s'.count == s.count && s'.claimed == s.claimed
  {
    if s.pc[a].Marked? { assert a in Claimers(s); }
  }

  lemma WaitCounts(s: State, a: nat)
    requires Shape(s) && a < |s.pc|
    ensures StepWait(s, a).count == s.count && StepWait(s, a).claimed == s.claimed
  {
  }

  lemma BlockCounts(s: State, a: nat)
    requires Shape(s) && a < |s.pc|
    ensures StepBlock(s, a).count == s.count && StepBlock(s, a).claimed == s.claimed
  {
  }

  lemma StepCounts(s: State, e: Event)
    requires Shape(s) && CountsOk(s)
    ensures var s' := Step(s, e);
            && s'.count == s.count + (if Is(Added, s, e) then 1 else 0) - (if Is(Finished, s, e) then 1 else 0)
            && s'.claimed == s.claimed + (if Is(Announced, s, e) then 1 else 0) - (if Is(Finished, s, e) then 1 else 0)
  {
    hide StepDone, StepWait, StepBlock, CountsOk;
    if e.AgentStep? && e.a < |s.pc| {
      DoneCounts(s, e.a);
      WaitCounts(s, e.a);
      BlockCounts(s, e.a);
    }
  }

  /** The count is what the calls make it: one up for every Add, one down for every completion's decrement,
      and every announced completion decrements once. */
  lemma {:induction false} CountIsTheCalls(count: nat, agents: nat, events: seq<Event>)
    ensures var s0 := Init(count, agents);
            var s := Run(s0, events);
            && s.count == count + Times(Added, s0, events) - Times(Finished, s0, events)
            && s.claimed == Times(Announced, s0, events) - Times(Finished, s0, events)
  {
    hide Step;
    if events != [] {
      var before := events[..|events| - 1];
      CountIsTheCalls(count, agents, before);
      RunInv(count, agents, before);
      StepCounts(Run(Init(count, agents), before), events[|events| - 1]);
    }
  }

  // ---------- nobody returns early ----------

  // A waiter whose registration is over: the count had reached zero.
  predicate OwedOrZero(s: State, t: nat)
    requires Shape(s) && t < |s.pc|
  {
    (AsTask(s.pc[t]) || AsThread(s.pc[t])) && s.where[t] == Nowhere ==> s.count == 0
  }

  lemma DoneOwed(s: State, a: nat, t: nat)
    requires Shape(s) && ZeroOk(s) && a < |s.pc| && t < |s.pc| && DonePc(s.pc[a]) && OwedOrZero(s, t)
    ensures OwedOrZero(StepDone(s, a), t)
  {
  }

  lemma WaitOwed(s: State, a: nat, t: nat)
    requires Shape(s) && ZeroOk(s) && a < |s.pc| && t < |s.pc| && WaitPc(s.pc[a]) && OwedOrZero(s, t)
    ensures OwedOrZero(StepWait(s, a), t)
  {
  }

  lemma BlockOwed(s: State, a: nat, t: nat)
    requires Shape(s) && ZeroOk(s) && a < |s.pc| && t < |s.pc| && !DonePc(s.pc[a]) && !WaitPc(s.pc[a]) && OwedOrZero(s, t)
    ensures OwedOrZero(StepBlock(s, a), t)
  {
  }

  lemma StepOwed(s: State, e: Event, t: nat)
    requires Shape(s) && ZeroOk(s) && t < |s.pc| && OwedOrZero(s, t)
    ensures OwedOrZero(Step(s, e), t)
  {
    hide StepDone, StepWait, StepBlock, ZeroOk;
    if e.AgentStep? && e.a < |s.pc| {
      if DonePc(s.pc[e.a]) { DoneOwed(s, e.a, t); }
      else if WaitPc(s.pc[e.a]) { WaitOwed(s, e.a, t); }
      else { BlockOwed(s, e.a, t); }
    }
  }

  lemma {:induction false} RunOwed(count: nat, agents: nat, events: seq<Event>, t: nat)
    requires t < agents
    ensures var s := Run(Init(count, agents), events); |s.pc| == agents && OwedOrZero(s, t)
  {
    hide Step;
    if events != [] {
      RunOwed(count, agents, events[..|events| - 1], t);
      RunInv(count, agents, events[..|events| - 1]);
      StepOwed(Run(Init(count, agents), events[..|events| - 1]), events[|events| - 1], t);
    }
  }

  // The agent's wait returns to its caller.
  predicate Returns(s: State, s': State, a: nat)
    requires a < |s.pc| && |s'.pc| == |s.pc|
  {
    (s.pc[a].Suspended? && s'.pc[a].Idle?) || (!s.pc[a].Settled? && s'.pc[a].Settled?)
  }

  /** No wait returns before the count is zero, whether its caller was woken or found the count at zero. */
  lemma ReturnsAtZero(count: nat, agents: nat, events: seq<Event>, e: Event, a: nat)
    requires a < agents
    ensures var s := Run(Init(count, agents), events);
            |s.pc| == agents && (Returns(s, Step(s, e), a) ==> s.count == 0 && Step(s, e).count == 0)
  {
    RunOwed(count, agents, events, a);
    RunInv(count, agents, events);
    var s := Run(Init(count, agents), events);
    assert WaiterOk(s, a);
    if Returns(s, Step(s, e), a) { ReturnedHow(s, e, a); }
  }

  lemma ReturnedHow(s: State, e: Event, a: nat)
    requires Shape(s) && ZeroOk(s) && a < |s.pc| && Returns(s, Step(s, e), a) && OwedOrZero(s, a) && WaiterOk(s, a)
    ensures s.count == 0 && Step(s, e).count == 0
  {
    if !e.Add? && e.a < |s.pc| && e.a != a { OthersStay(s, e, a); }
    if e == AgentStep(a) { OwnReturn(s, a); }
  }

  lemma OwnReturn(s: State, a: nat)
    requires Shape(s) && ZeroOk(s) && a < |s.pc| && Returns(s, Step(s, AgentStep(a)), a) && OwedOrZero(s, a) && WaiterOk(s, a)
    ensures s.count == 0 && Step(s, AgentStep(a)).count == 0
  {
    hide StepDone;
    if s.pc[a].Suspended? {
      WaitCounts(s, a);
      assert s.wakes[a] == s.joins[a];
    } else {
      if DonePc(s.pc[a]) { DoneNeverSettles(s, a); }
      BlockCounts(s, a);
      assert !WaitPc(s.pc[a]) && SawZero(s.pc[a]);
    }
  }

  lemma DoneNeverSettles(s: State, a: nat)
    requires Shape(s) && a < |s.pc| && DonePc(s.pc[a])
    ensures !StepDone(s, a).pc[a].Settled?
  {
  }

  // ---------- never stuck ----------

  // Between calls, returned for good, or asleep and owed a wake.
  predicate AtEase(s: State, a: nat)
    requires Shape(s) && a < |s.pc|
  {
    || s.pc[a].Idle? || s.pc[a].Settled?
    || (s.pc[a].Suspended? && s.wakes[a] != s.joins[a]) || (s.pc[a].Blocked? && s.word[a] == WordWaiting)
  }

  predicate WantsLock(p: Pc) {
    p.WakeLock? || p.BlockLock? || p.SettleLock?
  }

  lemma DoneGoesOn(s: State, a: nat)
    requires Shape(s) && CountsOk(s) && a < |s.pc| && DonePc(s.pc[a]) && (s.pc[a].WakeLock? ==> s.lock.None?)
    ensures StepDone(s, a).pc[a] != s.pc[a]
  {
    if Mark(s.pc[a]) { assert a in Markers(s); }
    if s.pc[a].Marked? { assert a in Claimers(s); }
  }

  lemma WaitGoesOn(s: State, a: nat)
    requires Shape(s) && a < |s.pc| && WaitPc(s.pc[a]) && !AtEase(s, a)
    ensures StepWait(s, a).pc[a] != s.pc[a]
  {
  }

  lemma BlockGoesOn(s: State, a: nat)
    requires Shape(s) && a < |s.pc| && !DonePc(s.pc[a]) && !WaitPc(s.pc[a]) && !AtEase(s, a)
    requires (WantsLock(s.pc[a]) ==> s.lock.None?) && (s.pc[a].SettleSpin? ==> s.waking == 0)
    ensures StepBlock(s, a).pc[a] != s.pc[a]
  {
  }

  lemma GoesOn(s: State, a: nat)
    requires Shape(s) && CountsOk(s) && a < |s.pc| && !AtEase(s, a)
    requires (WantsLock(s.pc[a]) ==> s.lock.None?) && (s.pc[a].SettleSpin? ==> s.waking == 0)
    ensures Step(s, AgentStep(a)).pc[a] != s.pc[a]
  {
    hide StepDone, StepWait, StepBlock, CountsOk;
    if DonePc(s.pc[a]) { DoneGoesOn(s, a); }
    else if WaitPc(s.pc[a]) { WaitGoesOn(s, a); }
    else { BlockGoesOn(s, a); }
  }

  predicate LockIn(s: State) {
    s.lock.Some? ==> s.lock.value < |s.pc|
  }

  lemma DoneLocks(s: State, a: nat)
    requires Shape(s) && a < |s.pc|
    ensures StepDone(s, a).lock in {s.lock, None, Some(a)}
  {
  }

  lemma WaitLocks(s: State, a: nat)
    requires Shape(s) && a < |s.pc|
    ensures StepWait(s, a).lock == s.lock
  {
  }

  lemma BlockLocks(s: State, a: nat)
    requires Shape(s) && a < |s.pc|
    ensures StepBlock(s, a).lock in {s.lock, None, Some(a)}
  {
  }

  lemma StepLockIn(s: State, e: Event)
    requires Shape(s) && LockIn(s)
    ensures LockIn(Step(s, e))
  {
    hide StepDone, StepWait, StepBlock;
    if e.AgentStep? && e.a < |s.pc| {
      DoneLocks(s, e.a);
      WaitLocks(s, e.a);
      BlockLocks(s, e.a);
    }
  }

  lemma {:induction false} RunLockIn(count: nat, agents: nat, events: seq<Event>)
    ensures LockIn(Run(Init(count, agents), events))
  {
    hide Step;
    if events != [] {
      RunLockIn(count, agents, events[..|events| - 1]);
      StepLockIn(Run(Init(count, agents), events[..|events| - 1]), events[|events| - 1]);
    }
  }

  // Whoever has the lock, if anybody, or else the agent itself.
  lemma LockOrSelf(s: State, a: nat) returns (b: nat)
    requires Shape(s) && CountsOk(s) && LockOk(s) && LockIn(s) && a < |s.pc| && !AtEase(s, a)
    requires s.pc[a].SettleSpin? ==> s.waking == 0
    ensures b < |s.pc| && Step(s, AgentStep(b)).pc[b] != s.pc[b]
  {
    b := if WantsLock(s.pc[a]) && s.lock.Some? then s.lock.value else a;
    assert HoldsLock(s.pc[b]) <==> s.lock == Some(b);
    GoesOn(s, b);
  }

  /** Never stuck: while any agent is neither between calls nor asleep with a wake owed to it, some agent's
      step changes its place. */
  lemma NeverStuck(count: nat, agents: nat, events: seq<Event>, a: nat) returns (b: nat)
    requires a < agents
    requires var s := Run(Init(count, agents), events); |s.pc| == agents && !AtEase(s, a)
    ensures var s := Run(Init(count, agents), events);
            b < |s.pc| && |Step(s, AgentStep(b)).pc| == |s.pc| && Step(s, AgentStep(b)).pc[b] != s.pc[b]
  {
    RunInv(count, agents, events);
    RunLockIn(count, agents, events);
    var s := Run(Init(count, agents), events);
    if s.pc[a].SettleSpin? && s.waking > 0 {
      var m :| m in Markers(s);
      b := LockOrSelf(s, m);
    } else {
      b := LockOrSelf(s, a);
    }
  }

  // ---------- a call left alone ----------

  // Agent a takes n steps and nobody else moves.
  function For(s: State, a: nat, n: nat): (f: State)
    requires Shape(s) && a < |s.pc|
    ensures Shape(f) && |f.pc| == |s.pc|
    decreases n
  {
    if n == 0 then s else For(Step(s, AgentStep(a)), a, n - 1)
  }

  lemma ForOn(s: State, a: nat, n: nat)
    requires Shape(s) && a < |s.pc|
    ensures For(s, a, n + 1) == For(Step(s, AgentStep(a)), a, n)
  {
  }

  /** A completion that is not the last, or that nobody waits for, left alone: one off the count and no mark left. */
  lemma DoneAlone(s: State, a: nat)
    requires Shape(s) && a < |s.pc| && s.pc[a].Idle? && s.claimed < s.count && !(s.count == 1 && s.bit)
    ensures For(Step(s, BeginDone(a)), a, 2) == s.(count := s.count - 1)
  {
    var s1 := Step(s, BeginDone(a));
    var s2 := Step(s1, AgentStep(a));
    assert s2 == Goto(s1, a, Unmark).(count := s.count - 1, claimed := s.claimed);
    var s3 := Step(s2, AgentStep(a));
    assert s3.pc == s.pc;
    ForOn(s1, a, 1);
    ForOn(s2, a, 0);
  }

  /** A task's wait, with units outstanding, left alone: it is registered first on the list, once, and suspended. */
  lemma WaitAlone(s: State, a: nat)
    requires Shape(s) && a < |s.pc| && s.pc[a].Idle? && s.count > 0
    ensures var f := For(Step(s, BeginWait(a)), a, 2);
            && f.pc[a].Suspended? && f.list == [a] + s.list && f.bit && f.count == s.count
            && f.joins == s.joins[a := s.joins[a] + 1] && f.wakes == s.wakes
  {
    var s1 := Step(s, BeginWait(a));
    var s2 := Step(s1, AgentStep(a));
    assert s2 == Join(Goto(s1, a, ListBit), a).(list := [a] + s.list);
    ForOn(s1, a, 1);
    ForOn(s2, a, 0);
  }

  lemma BlockEnters(s: State, a: nat)
    requires Shape(s) && a < |s.pc| && s.pc[a].BlockLock? && s.count > 0 && s.lock.None?
    ensures For(s, a, 2) == Goto(s, a, BlockPush).(lock := Some(a), bit := true)
  {
    var s1 := Step(s, AgentStep(a));
    assert s1 == Goto(s, a, BlockBit).(lock := Some(a));
    var s2 := Step(s1, AgentStep(a));
    assert s2.pc == s.pc[a := BlockPush];
    ForOn(s, a, 1);
    ForOn(s1, a, 0);
  }

  lemma BlockRegisters(s: State, a: nat)
    requires Shape(s) && a < |s.pc| && s.pc[a].BlockPush?
    ensures For(s, a, 2) == Join(Goto(s, a, Blocked), a).(lock := None, blocked := s.blocked + [a])
  {
    var s1 := Step(s, AgentStep(a));
    assert s1 == Join(Goto(s, a, BlockUnlock), a).(blocked := s.blocked + [a]);
    var s2 := Step(s1, AgentStep(a));
    assert s2.pc == s.pc[a := Blocked];
    ForOn(s, a, 1);
    ForOn(s1, a, 0);
  }

  /** A thread's wait, with units outstanding and the lock free, left alone: its word is registered last and it blocks. */
  lemma BlockAlone(s: State, a: nat)
    requires Shape(s) && a < |s.pc| && s.pc[a].Idle? && s.count > 0 && s.lock.None?
    ensures var f := For(Step(s, BeginBlock(a)), a, 4);
            && f.pc[a].Blocked? && f.word[a] == WordWaiting && f.blocked == s.blocked + [a] && f.bit && f.lock.None?
            && f.count == s.count && f.joins == s.joins[a := s.joins[a] + 1]
  {
    var s1 := Step(s, BeginBlock(a));
    assert s1 == Goto(s, a, BlockLock).(word := s.word[a := WordWaiting]);
    hide Step;
    BlockEnters(s1, a);
    BlockRegisters(For(s1, a, 2), a);
    ForOn(s1, a, 3);
    ForOn(Step(s1, AgentStep(a)), a, 2);
    ForOn(s1, a, 1);
    ForOn(Step(s1, AgentStep(a)), a, 0);
  }

  // Settle with no mark up and the lock free.
  lemma SettleAlone(s: State, a: nat)
    requires Shape(s) && a < |s.pc| && s.pc[a].SettleSpin? && s.waking == 0 && s.lock.None?
    ensures For(s, a, 3) == Goto(s, a, Settled)
  {
    var s1 := Step(s, AgentStep(a));
    assert s1 == Goto(s, a, SettleLock);
    var s2 := Step(s1, AgentStep(a));
    assert s2 == Goto(s1, a, SettleUnlock).(lock := Some(a));
    var s3 := Step(s2, AgentStep(a));
    assert s3.pc == s.pc[a := Settled];
    ForOn(s, a, 2);
    ForOn(s1, a, 1);
    ForOn(s2, a, 0);
  }

  /** A waiter that finds the count at zero, with no mark up and the lock free, left alone returns. */
  lemma PollAlone(s: State, a: nat)
    requires Shape(s) && a < |s.pc| && s.pc[a].Idle? && s.count == 0 && s.waking == 0 && s.lock.None?
    ensures For(Step(s, Poll(a)), a, 3) == Goto(s, a, Settled)
  {
    var s1 := Step(s, Poll(a));
    assert s1 == Goto(s, a, SettleSpin);
    SettleAlone(s1, a);
    assert Goto(s1, a, Settled).pc == s.pc[a := Settled];
  }
}
