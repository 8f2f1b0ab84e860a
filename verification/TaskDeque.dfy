/**
  The Chase-Lev deque with a growing ring (include/TaskDeque.h), as a transition
  system of single atomic accesses: one owner that pushes, pops and grows, and any
  number of thieves, interleaved in any order.  A thief may go on reading a ring
  that the owner has already replaced.

  `pushed` and `taken` are histories.  `taken` records the value that the code read
  from a ring slot; the content of the deque is read off the current ring.
 */
module TaskDeque {

  type Task = int

  // The null task pointer, which push_bottom refuses.
  const NULL_TASK: Task := 0

  type Ring = r: seq<Task> | |r| > 0 witness [0]

  datatype Owner =
    | OIdle
    | OPush(batch: seq<Task>, t: nat)                     // top loaded
    | OCopy(batch: seq<Task>, t: nat, bigger: Ring, i: nat)  // the copy loop of grow
    | OStore(batch: seq<Task>, stored: nat)               // slots being written
    | OMark                                               // bottom published
    | OPopLoaded(t: nat)                                  // first load of top
    | OPopLowered                                         // bottom lowered
    | OPopSeen(t: nat)                                    // second load of top
    | OPopCas(v: Task)                                    // one task left: contended
    | OPopFix                                             // bottom to be restored

  datatype Thief =
    | TIdle
    | TTop(t: nat)               // top loaded
    | TBottom(t: nat)            // bottom loaded and found above top
    | TRing(t: nat, ring: nat)   // ring pointer loaded
    | TValue(t: nat, v: Task)    // slot read; the compare-and-swap comes next

  datatype State = State(
    top: nat,
    bottom: nat,
    retired: seq<Ring>,          // replaced rings, oldest first; never freed while in use
    ring: Ring,
    flag: bool,                  // "this deque may have work"
    owner: Owner,
    thieves: seq<Thief>,
    pushed: seq<Task>,
    taken: seq<Task>)

  datatype Event =
    | Push(task: Task)
    | PushBatch(tasks: seq<Task>)
    | Pop
    | OwnerStep
    | ThiefStep(id: nat, accept: bool)  // accept: the answer of steal_if's predicate

  // A ring is addressed modulo its capacity.
  function At(r: Ring, i: nat): Task {
    r[i % |r|]
  }

  function Write(r: Ring, i: nat, v: Task): Ring {
    r[i % |r| := v]
  }

  // The ring with the given number, the current one being the last.
  function RingOf(s: State, n: nat): Ring {
    if n < |s.retired| then s.retired[n] else s.ring
  }

  function Init(capacity: nat, thieves: nat): State
    requires capacity > 0
  {
    State(0, 0, [], seq(capacity, _ => NULL_TASK), false, OIdle, seq(thieves, _ => TIdle), [], [])
  }

  // ---------- the steps ----------

  function StepPush(s: State, batch: seq<Task>, t: nat): State {
    if s.bottom + |batch| - t > |s.ring| then
      s.(owner := OCopy(batch, t, seq(2 * |s.ring|, _ => NULL_TASK), t))
    else
      s.(owner := OStore(batch, 0))
  }

  function StepCopy(s: State, batch: seq<Task>, t: nat, bigger: Ring, i: nat): State {
    if i < s.bottom then
      s.(owner := OCopy(batch, t, Write(bigger, i, At(s.ring, i)), i + 1))
    else
      s.(retired := s.retired + [s.ring], ring := bigger, owner := OPush(batch, t))
  }

  function StepStore(s: State, batch: seq<Task>, k: nat): State {
    if k < |batch| then
      s.(ring := Write(s.ring, s.bottom + k, batch[k]), owner := OStore(batch, k + 1))
    else
      s.(bottom := s.bottom + |batch|, owner := OMark, pushed := s.pushed + batch)
  }

  function StepPopSeen(s: State, t: nat): State {
    if t > s.bottom then
      s.(bottom := t, flag := false, owner := OIdle)
    else if t == s.bottom then
      s.(owner := OPopCas(At(s.ring, s.bottom)))
    else
      s.(owner := OIdle, taken := s.taken + [At(s.ring, s.bottom)])
  }

  function StepOwner(s: State): State {
    match s.owner
    case OIdle => s
    case OPush(batch, t) => StepPush(s, batch, t)
    case OCopy(batch, t, bigger, i) => StepCopy(s, batch, t, bigger, i)
    case OStore(batch, k) => StepStore(s, batch, k)
    case OMark => s.(flag := true, owner := OIdle)
    case OPopLoaded(t) =>
      if t >= s.bottom then s.(flag := false, owner := OIdle)
      else s.(bottom := s.bottom - 1, owner := OPopLowered)
    case OPopLowered => s.(owner := OPopSeen(s.top))
    case OPopSeen(t) => StepPopSeen(s, t)
    case OPopCas(v) =>
      if s.top == s.bottom then s.(top := s.top + 1, owner := OPopFix, taken := s.taken + [v])
      else s.(owner := OPopFix)
    case OPopFix => s.(bottom := s.bottom + 1, flag := false, owner := OIdle)
  }

  function SetThief(s: State, id: nat, pc: Thief): State
    requires id < |s.thieves|
  {
    s.(thieves := s.thieves[id := pc])
  }

  function StepThief(s: State, id: nat, accept: bool): State
    requires id < |s.thieves|
  {
    match s.thieves[id]
    case TIdle => SetThief(s, id, TTop(s.top))
    case TTop(t) => SetThief(s, id, if t < s.bottom then TBottom(t) else TIdle)
    case TBottom(t) => SetThief(s, id, TRing(t, |s.retired|))
    case TRing(t, n) => SetThief(s, id, TValue(t, At(RingOf(s, n), t)))
    case TValue(t, v) =>
      if accept && s.top == t then SetThief(s, id, TIdle).(top := t + 1, taken := s.taken + [v])
      else SetThief(s, id, TIdle)
  }

  function Step(s: State, e: Event): State {
    match e
    case Push(task) =>
      if s.owner.OIdle? && task != NULL_TASK then s.(owner := OPush([task], s.top)) else s
    case PushBatch(tasks) =>
      if s.owner.OIdle? then s.(owner := OPush(tasks, s.top)) else s
    case Pop => if s.owner.OIdle? then s.(owner := OPopLoaded(s.top)) else s
    case OwnerStep => StepOwner(s)
    case ThiefStep(id, accept) => if id < |s.thieves| then StepThief(s, id, accept) else s
  }

  function Run(s: State, events: seq<Event>): State {
    if events == [] then s
    else Step(Run(s, events[..|events| - 1]), events[|events| - 1])
  }

  // ---------- the content and the invariant ----------

  // While a pop has lowered bottom and not yet decided, the last task still belongs to the deque.
  predicate Undecided(o: Owner) {
    o.OPopLowered? || o.OPopSeen? || o.OPopCas? || o.OPopFix?
  }

  function End(s: State): nat {
    if Undecided(s.owner) then s.bottom + 1 else s.bottom
  }

  // The tasks still in the deque, oldest first.
  function Content(s: State): seq<Task> {
    if s.top <= End(s) then seq(End(s) - s.top, k requires 0 <= k => At(s.ring, s.top + k)) else []
  }

  predicate Passed(p: Thief) {
    p.TBottom? || p.TRing? || p.TValue?
  }

  predicate ThiefOk(s: State, p: Thief) {
    match p
    case TIdle => true
    case TTop(t) => t <= s.top
    case TBottom(t) => t <= s.top && (t == s.top ==> t < End(s))
    case TRing(t, n) =>
      && t <= s.top
      && n <= |s.retired|
      && (t == s.top ==> t < End(s) && At(RingOf(s, n), t) == At(s.ring, t))
    case TValue(t, v) => t <= s.top && (t == s.top ==> t < End(s) && v == At(s.ring, t))
  }

  predicate OwnerOk(s: State) {
    match s.owner
    case OIdle => true
    case OPush(_, t) => t <= s.top && s.bottom - t <= |s.ring|
    case OCopy(_, t, bigger, i) =>
      && t <= s.top && s.bottom - t <= |s.ring| && t <= i <= s.bottom
      && |bigger| == 2 * |s.ring|
      && forall j: nat | t <= j < i :: At(bigger, j) == At(s.ring, j)
    case OStore(batch, k) =>
      && k <= |batch|
      && s.bottom + |batch| - s.top <= |s.ring|
      && forall m: nat | m < k :: At(s.ring, s.bottom + m) == batch[m]
    case OMark => true
    case OPopLoaded(t) => t <= s.top && (!s.flag ==> t == s.bottom)
    case OPopLowered => s.flag
    case OPopSeen(t) =>
      && s.flag
      && t <= s.top
      && (t < s.bottom ==>
            s.top <= s.bottom && forall j | 0 <= j < |s.thieves| && Passed(s.thieves[j]) :: s.thieves[j].t < s.bottom)
      && (t > s.bottom ==> s.top == t)
    case OPopCas(v) => s.flag && s.bottom <= s.top && v == At(s.ring, s.bottom)
    case OPopFix => s.flag && s.top == s.bottom + 1
  }

  predicate Inv(s: State) {
    && s.top <= End(s)
    && End(s) - s.top <= |s.ring|
    && OwnerOk(s)
    && (forall j | 0 <= j < |s.thieves| :: ThiefOk(s, s.thieves[j]))
    && ((s.owner.OIdle? || s.owner.OPopLoaded?) && !s.flag ==> s.top == s.bottom)
  }

  // ---------- ring arithmetic ----------

  lemma ModDistinct(i: nat, j: nat, c: nat)
    requires 0 < c && i < j < i + c
    ensures i % c != j % c
  {
    var q := j / c - i / c;
    assert (j - i) - (j % c - i % c) == c * q;
    if q <= 0 { assert c * q <= 0; } else { assert c * q >= c; }
  }

  // A write leaves every other index of one window of the ring alone.
  lemma WriteFrame(r: Ring, i: nat, v: Task)
    ensures At(Write(r, i, v), i) == v
    ensures forall j: nat | j != i && j < i + |r| && i < j + |r| :: At(Write(r, i, v), j) == At(r, j)
  {
    forall j: nat | j != i && j < i + |r| && i < j + |r|
      ensures At(Write(r, i, v), j) == At(r, j)
    {
      if i < j { ModDistinct(i, j, |r|); } else { ModDistinct(j, i, |r|); }
    }
  }

  // ---------- preservation ----------

  lemma InitInv(capacity: nat, thieves: nat)
    requires capacity > 0
    ensures Inv(Init(capacity, thieves)) && Content(Init(capacity, thieves)) == []
  {}

  // What one step may do to the abstract deque: nothing, append a batch, or hand out one end.
  datatype Effect = Same | Appended(batch: seq<Task>) | TookFront | TookBack

  predicate Abstract(s: State, s': State, f: Effect) {
    var c, c' := Content(s), Content(s');
    match f
    case Same => c' == c && s'.pushed == s.pushed && s'.taken == s.taken
    case Appended(batch) => c' == c + batch && s'.pushed == s.pushed + batch && s'.taken == s.taken
    case TookFront => c != [] && c' == c[1..] && s'.pushed == s.pushed && s'.taken == s.taken + [c[0]]
    case TookBack =>
      c != [] && c' == c[..|c| - 1] && s'.pushed == s.pushed && s'.taken == s.taken + [c[|c| - 1]]
  }

  // The effect of a step, read off the program counter of the thread that takes it.
  function EffectOf(s: State, e: Event): Effect {
    match e
    case OwnerStep =>
      (match s.owner
       case OStore(batch, k) => if k == |batch| then Appended(batch) else Same
       case OPopSeen(t) => if t < s.bottom then TookBack else Same
       case OPopCas(_) => if s.top == s.bottom then TookBack else Same
       case _ => Same)
    case ThiefStep(id, accept) =>
      if id < |s.thieves| && s.thieves[id].TValue? && accept && s.thieves[id].t == s.top then TookFront else Same
    case _ => Same
  }

  lemma PushStep(s: State)
    requires Inv(s) && s.owner.OPush?
    ensures Inv(StepOwner(s)) && Abstract(s, StepOwner(s), Same)
  {}

  lemma CopyStep(s: State)
    requires Inv(s) && s.owner.OCopy?
    ensures Inv(StepOwner(s)) && Abstract(s, StepOwner(s), Same)
  {
    var OCopy(batch, t, bigger, i) := s.owner;
    if i < s.bottom {
      WriteFrame(bigger, i, At(s.ring, i));
    } else {
      assert Content(StepOwner(s)) == Content(s);
    }
  }

  lemma StoreSlotStep(s: State)
    requires Inv(s) && s.owner.OStore? && s.owner.stored < |s.owner.batch|
    ensures Inv(StepOwner(s)) && Abstract(s, StepOwner(s), Same)
  {
    var OStore(batch, k) := s.owner;
    var s' := StepOwner(s);
    WriteFrame(s.ring, s.bottom + k, batch[k]);
    assert forall i: nat | s.top <= i < s.bottom + k :: At(s'.ring, i) == At(s.ring, i);
    assert Content(s') == Content(s);
    forall j | 0 <= j < |s'.thieves| ensures ThiefOk(s', s'.thieves[j]) { StoreThief(s, s', s.thieves[j]); }
  }

  // A store beyond the last task leaves what a thief remembers of the first one right.
  lemma StoreThief(s: State, s': State, p: Thief)
    requires ThiefOk(s, p) && s'.top == s.top && s'.retired == s.retired && End(s') == End(s)
    requires s.top < End(s) ==> At(s'.ring, s.top) == At(s.ring, s.top)
    ensures ThiefOk(s', p)
  {
  }

  lemma StoreStep(s: State)
    requires Inv(s) && s.owner.OStore?
    ensures Inv(StepOwner(s)) && Abstract(s, StepOwner(s), EffectOf(s, OwnerStep))
  {
    var OStore(batch, k) := s.owner;
    if k < |batch| {
      StoreSlotStep(s);
    } else {
      assert Content(StepOwner(s)) == Content(s) + batch;
    }
  }

  lemma PopStep(s: State)
    requires Inv(s) && !s.owner.OPush? && !s.owner.OCopy? && !s.owner.OStore?
    ensures Inv(StepOwner(s)) && Abstract(s, StepOwner(s), EffectOf(s, OwnerStep))
  {
    var s' := StepOwner(s);
    if EffectOf(s, OwnerStep).TookBack? {
      assert Content(s') == Content(s)[..|Content(s)| - 1];
    } else {
      assert Content(s') == Content(s);
    }
  }

  lemma StealStep(s: State, id: nat)
    requires Inv(s) && id < |s.thieves| && s.thieves[id].TValue? && s.thieves[id].t == s.top
    ensures Inv(StepThief(s, id, true)) && Abstract(s, StepThief(s, id, true), TookFront)
  {
    var s' := StepThief(s, id, true);
    assert ThiefOk(s, s.thieves[id]);
    assert Content(s') == Content(s)[1..];
    forall j | 0 <= j < |s'.thieves| ensures ThiefOk(s', s'.thieves[j]) {
      assert ThiefOk(s, s.thieves[j]);
    }
  }

  // A thief's move that touches nothing shared.
  lemma PrivateMove(s: State, id: nat, pc: Thief)
    requires Inv(s) && id < |s.thieves| && ThiefOk(s, pc)
    requires s.owner.OPopSeen? && s.owner.t < s.bottom && Passed(pc) ==> pc.t < s.bottom
    ensures Inv(SetThief(s, id, pc)) && Abstract(s, SetThief(s, id, pc), Same)
  {
    var s' := SetThief(s, id, pc);
    assert Content(s') == Content(s);
    forall j | 0 <= j < |s'.thieves| ensures ThiefOk(s', s'.thieves[j]) {
      assert ThiefOk(s, s.thieves[j]);
    }
  }

  lemma ThiefStepInv(s: State, id: nat, accept: bool)
    requires Inv(s) && id < |s.thieves|
    ensures Inv(StepThief(s, id, accept)) && Abstract(s, StepThief(s, id, accept), EffectOf(s, ThiefStep(id, accept)))
  {
    assert ThiefOk(s, s.thieves[id]);
    if EffectOf(s, ThiefStep(id, accept)).TookFront? {
      StealStep(s, id);
    } else {
      PrivateMove(s, id, StepThief(s, id, accept).thieves[id]);
    }
  }

  /** Every step keeps the invariant and acts on the abstract deque as its program counter says. */
  lemma StepRefines(s: State, e: Event)
    requires Inv(s)
    ensures Inv(Step(s, e)) && Abstract(s, Step(s, e), EffectOf(s, e))
  {
    match e
    case OwnerStep =>
      if s.owner.OPush? { PushStep(s); }
      else if s.owner.OCopy? { CopyStep(s); }
      else if s.owner.OStore? { StoreStep(s); }
      else { PopStep(s); }
    case ThiefStep(id, accept) => if id < |s.thieves| { ThiefStepInv(s, id, accept); }
    case _ => assert Content(Step(s, e)) == Content(s);
  }

  // ---------- whole runs ----------

  lemma {:induction false} RunInv(capacity: nat, thieves: nat, events: seq<Event>)
    requires capacity > 0
    ensures Inv(Run(Init(capacity, thieves), events))
  {
    if events == [] { InitInv(capacity, thieves); }
    else {
      RunInv(capacity, thieves, events[..|events| - 1]);
      StepRefines(Run(Init(capacity, thieves), events[..|events| - 1]), events[|events| - 1]);
    }
  }

  lemma EffectConserves(s: State, s': State, f: Effect)
    requires Abstract(s, s', f)
    requires multiset(s.pushed) == multiset(s.taken) + multiset(Content(s))
    ensures multiset(s'.pushed) == multiset(s'.taken) + multiset(Content(s'))
  {
    var c, c' := Content(s), Content(s');
    match f
    case Same =>
    case Appended(batch) => assert multiset(c + batch) == multiset(c) + multiset(batch);
    case TookFront => TakenOut(c, [c[0]], c[1..], s.taken);
    case TookBack => TakenOut(c, [c[|c| - 1]], c[..|c| - 1], s.taken);
  }

  lemma TakenOut(c: seq<Task>, one: seq<Task>, rest: seq<Task>, taken: seq<Task>)
    requires c == one + rest || c == rest + one
    ensures multiset(taken + one) + multiset(rest) == multiset(taken) + multiset(c)
  {
  }

  /** Conservation: in every run, pushed = taken + still in the deque, counting repetitions. */
  lemma {:induction false} Conservation(capacity: nat, thieves: nat, events: seq<Event>)
    requires capacity > 0
    ensures var s := Run(Init(capacity, thieves), events);
            multiset(s.pushed) == multiset(s.taken) + multiset(Content(s))
  {
    if events == [] { InitInv(capacity, thieves); }
    else {
      var before := events[..|events| - 1];
      var s := Run(Init(capacity, thieves), before);
      Conservation(capacity, thieves, before);
      RunInv(capacity, thieves, before);
      StepRefines(s, events[|events| - 1]);
      EffectConserves(s, Step(s, events[|events| - 1]), EffectOf(s, events[|events| - 1]));
    }
  }

  predicate Distinct(xs: seq<Task>) {
    forall i, j | 0 <= i < j < |xs| :: xs[i] != xs[j]
  }

  lemma {:induction false} DistinctCount(xs: seq<Task>)
    ensures Distinct(xs) <==> forall x | x in multiset(xs) :: multiset(xs)[x] <= 1
  {
    if xs != [] {
      var ys, y := xs[..|xs| - 1], xs[|xs| - 1];
      assert xs == ys + [y];
      DistinctCount(ys);
      assert multiset(xs)[y] == multiset(ys)[y] + 1;
      if Distinct(xs) {
        assert y !in ys;
        forall x | x in multiset(xs) ensures multiset(xs)[x] <= 1 {}
      } else {
        if Distinct(ys) {
          var i, j :| 0 <= i < j < |xs| && xs[i] == xs[j];
          assert j == |xs| - 1 && ys[i] == y;
          assert y in multiset(ys);
        } else {
          var x :| x in multiset(ys) && multiset(ys)[x] > 1;
          assert x in multiset(xs) && multiset(xs)[x] > 1;
        }
      }
    }
  }

  // ---------- what the callers handed in ----------

  // What one event hands in: a call made while the owner is between calls, and no null task.
  function Accepted(s: State, e: Event): seq<Task> {
    match e
    case Push(task) => if s.owner.OIdle? && task != NULL_TASK then [task] else []
    case PushBatch(tasks) => if s.owner.OIdle? then tasks else []
    case _ => []
  }

  // The tasks handed in over a run, in the order of the calls.
  function Handed(s: State, events: seq<Event>): seq<Task> {
    if events == [] then []
    else
      var before := events[..|events| - 1];
      Handed(s, before) + Accepted(Run(s, before), events[|events| - 1])
  }

  // The tasks of the push that is under way.
  function InHand(o: Owner): seq<Task> {
    match o
    case OPush(batch, _) => batch
    case OCopy(batch, _, _, _) => batch
    case OStore(batch, _) => batch
    case _ => []
  }

  lemma StepHands(s: State, e: Event)
    ensures var s' := Step(s, e); s'.pushed + InHand(s'.owner) == s.pushed + InHand(s.owner) + Accepted(s, e)
  {
    if e.OwnerStep? { OwnerHands(s); }
  }

  lemma OwnerHands(s: State)
    ensures StepOwner(s).pushed + InHand(StepOwner(s).owner) == s.pushed + InHand(s.owner)
  {
  }

  lemma Regroup(a: seq<Task>, b: seq<Task>, c: seq<Task>)
    ensures a + b + c == a + (b + c)
  {
  }

  /** Every task handed in, and nothing else, is in the deque's books once its call is over, in the order of the calls. */
  lemma {:induction false} PushedIsHanded(s: State, events: seq<Event>)
    requires s.owner.OIdle?
    ensures var f := Run(s, events);
            && f.pushed + InHand(f.owner) == s.pushed + Handed(s, events)
            && (f.owner.OIdle? ==> f.pushed == s.pushed + Handed(s, events))
  {
    if events != [] {
      var before, e := events[..|events| - 1], events[|events| - 1];
      PushedIsHanded(s, before);
      StepHands(Run(s, before), e);
      Regroup(s.pushed, Handed(s, before), Accepted(Run(s, before), e));
    }
  }

  /** Distinct tasks handed in: each is returned at most once, and never while it is still in the deque
      or on its way in. */
  lemma ReturnedAtMostOnce(capacity: nat, thieves: nat, events: seq<Event>)
    requires capacity > 0
    requires Distinct(Handed(Init(capacity, thieves), events))
    ensures var s := Run(Init(capacity, thieves), events);
            var handed := Handed(Init(capacity, thieves), events);
            && Distinct(s.taken)
            && (forall x | x in s.taken :: x in handed && x !in Content(s) && x !in InHand(s.owner))
            && multiset(handed) == multiset(s.taken) + multiset(Content(s)) + multiset(InHand(s.owner))
  {
    var s := Run(Init(capacity, thieves), events);
    var handed := Handed(Init(capacity, thieves), events);
    Conservation(capacity, thieves, events);
    PushedIsHanded(Init(capacity, thieves), events);
    assert handed == s.pushed + InHand(s.owner);
    DistinctCount(handed);
    DistinctCount(s.taken);
    forall x | x in multiset(s.taken) ensures multiset(s.taken)[x] <= 1 {
      assert x in multiset(handed);
    }
    forall x | x in s.taken ensures x in handed && x !in Content(s) && x !in InHand(s.owner) {
      assert x in multiset(s.taken) && x in multiset(handed);
      assert x in Content(s) ==> multiset(Content(s))[x] >= 1;
      assert x in InHand(s.owner) ==> multiset(InHand(s.owner))[x] >= 1;
    }
  }

  // ---------- a call left alone ----------

  // The owner takes n steps and nobody else moves.
  function Alone(s: State, n: nat): State
    decreases n
  {
    if n == 0 then s else Alone(StepOwner(s), n - 1)
  }

  // How much the ring is too small by.
  function Lacking(s: State, batch: seq<Task>, t: nat): nat {
    if s.bottom + |batch| - t > |s.ring| then s.bottom + |batch| - t - |s.ring| else 0
  }

  predicate Pushing(s: State) {
    match s.owner
    case OPush(_, _) => true
    case OCopy(batch, t, _, _) => Lacking(s, batch, t) > 0
    case OStore(_, _) => true
    case OMark => true
    case _ => false
  }

  // Where a push is: how much it lacks, the phase, and what is left of the phase.
  function Phase(s: State): nat {
    match s.owner
    case OPush(_, _) => 2
    case OCopy(_, _, _, _) => 1
    case _ => 0
  }

  function Shortage(s: State): nat {
    match s.owner
    case OPush(batch, t) => Lacking(s, batch, t)
    case OCopy(batch, t, _, _) => Lacking(s, batch, t)
    case _ => 0
  }

  function Remaining(s: State): nat {
    match s.owner
    case OCopy(_, _, _, i) => if i < s.bottom then s.bottom - i else 0
    case OStore(batch, k) => if k < |batch| then |batch| - k + 1 else 1
    case _ => 0
  }

  lemma PushShrinks(s: State)
    requires OwnerOk(s) && Pushing(s) && !s.owner.OMark?
    ensures var s' := StepOwner(s);
            && Pushing(s')
            && (|| Shortage(s') < Shortage(s)
                || (Shortage(s') == Shortage(s) && Phase(s') < Phase(s))
                || (Shortage(s') == Shortage(s) && Phase(s') == Phase(s) && Remaining(s') < Remaining(s)))
  {
  }

  lemma PushOnward(s: State)
    requires Inv(s) && Pushing(s) && !s.owner.OMark?
    ensures var s' := StepOwner(s);
            && Inv(s') && s'.taken == s.taken
            && Content(s') + InHand(s'.owner) == Content(s) + InHand(s.owner)
            && s'.pushed + InHand(s'.owner) == s.pushed + InHand(s.owner)
  {
    StepRefines(s, OwnerStep);
  }

  /** A push left alone ends, and has appended its tasks, in order, whatever it had to grow. */
  lemma {:induction false} PushEnds(s: State) returns (n: nat)
    requires Inv(s) && Pushing(s)
    ensures var f := Alone(s, n);
            && Inv(f) && f.owner.OIdle? && f.flag && f.taken == s.taken
            && Content(f) == Content(s) + InHand(s.owner) && f.pushed == s.pushed + InHand(s.owner)
    decreases Shortage(s), Phase(s), Remaining(s)
  {
    if s.owner.OMark? {
      StepRefines(s, OwnerStep);
      n := 1;
      assert Alone(s, 1) == Alone(StepOwner(s), 0) == StepOwner(s);
    } else {
      PushOnward(s);
      PushShrinks(s);
      var m := PushEnds(StepOwner(s));
      n := m + 1;
    }
  }

  /** push_bottom left alone appends its task, and the batch call its tasks, in order. */
  lemma PushAlone(s: State, e: Event) returns (n: nat)
    requires Inv(s) && s.owner.OIdle? && (e.PushBatch? || (e.Push? && e.task != NULL_TASK))
    ensures var f := Alone(Step(s, e), n);
            var handed := if e.Push? then [e.task] else e.tasks;
            && Inv(f) && f.owner.OIdle? && f.flag && f.taken == s.taken
            && Content(f) == Content(s) + handed && f.pushed == s.pushed + handed
  {
    StepRefines(s, e);
    n := PushEnds(Step(s, e));
  }

  lemma AloneOn(s: State, n: nat)
    ensures Alone(s, n + 1) == Alone(StepOwner(s), n)
  {
  }

  // The pop's last steps: bottom is lowered, and the task above it is decided on.
  lemma PopDecides(s: State) returns (n: nat)
    requires Inv(s) && s.owner == OPopSeen(s.top) && s.top <= s.bottom
    ensures var f := Alone(s, n);
            var c := Content(s);
            && Inv(f) && f.owner.OIdle? && f.pushed == s.pushed
            && c != [] && f.taken == s.taken + [c[|c| - 1]] && Content(f) == c[..|c| - 1]
  {
    StepRefines(s, OwnerStep);
    var s1 := StepOwner(s);
    AloneOn(s, 0);
    if s.top < s.bottom { n := 1; }
    else {
      StepRefines(s1, OwnerStep);
      var s2 := StepOwner(s1);
      StepRefines(s2, OwnerStep);
      n := 3;
      AloneOn(s, 2);
      AloneOn(s1, 1);
      AloneOn(s2, 0);
    }
  }

  // A pop that has found a task lowers bottom and reads top again.
  lemma PopLowers(s: State)
    requires Inv(s) && s.owner == OPopLoaded(s.top) && s.top < s.bottom
    ensures var s' := StepOwner(StepOwner(s));
            && Inv(s') && s'.owner == OPopSeen(s'.top) && s'.top <= s'.bottom
            && Content(s') == Content(s) && s'.pushed == s.pushed && s'.taken == s.taken
  {
    StepRefines(s, OwnerStep);
    StepRefines(StepOwner(s), OwnerStep);
  }

  /** A pop left alone returns the last task, and comes back with nothing only from an empty deque. */
  lemma PopAlone(s: State) returns (n: nat)
    requires Inv(s) && s.owner.OIdle?
    ensures var f := Alone(Step(s, Pop), n);
            var c := Content(s);
            && Inv(f) && f.owner.OIdle? && f.pushed == s.pushed
            && (if c == [] then f.taken == s.taken && Content(f) == [] && !f.flag
                else f.taken == s.taken + [c[|c| - 1]] && Content(f) == c[..|c| - 1])
  {
    StepRefines(s, Pop);
    var s1 := Step(s, Pop);
    if s.top >= s.bottom {
      StepRefines(s1, OwnerStep);
      n := 1;
      AloneOn(s1, 0);
    } else {
      PopLowers(s1);
      var m := PopDecides(StepOwner(StepOwner(s1)));
      n := m + 2;
      AloneOn(s1, m + 1);
      AloneOn(StepOwner(s1), m);
    }
  }

  // Thief id takes n steps and nobody else moves.
  function ThiefAlone(s: State, id: nat, accept: bool, n: nat): (f: State)
    requires id < |s.thieves|
    ensures |f.thieves| == |s.thieves|
    decreases n
  {
    if n == 0 then s else ThiefAlone(StepThief(s, id, accept), id, accept, n - 1)
  }

  lemma ThiefOn(s: State, id: nat, accept: bool, n: nat)
    requires id < |s.thieves|
    ensures ThiefAlone(s, id, accept, n + 1) == ThiefAlone(StepThief(s, id, accept), id, accept, n)
  {
  }

  // A thief with the first task's value in hand, and the compare-and-swap to come.
  lemma StealCas(s: State, id: nat, accept: bool)
    requires Inv(s) && id < |s.thieves| && s.thieves[id].TValue? && s.thieves[id].t == s.top
    ensures var f := StepThief(s, id, accept);
            var c := Content(s);
            && c != [] && Inv(f) && f.pushed == s.pushed && f.thieves[id].TIdle?
            && (if accept then f.taken == s.taken + [c[0]] && Content(f) == c[1..]
                else f.taken == s.taken && Content(f) == c)
  {
    assert ThiefOk(s, s.thieves[id]);
    StepRefines(s, ThiefStep(id, accept));
  }

  // A thief that has passed its look at bottom takes the first task, if its predicate accepts it.
  lemma StealDecides(s: State, id: nat, accept: bool)
    requires Inv(s) && id < |s.thieves| && s.thieves[id] == TBottom(s.top)
    ensures var f := ThiefAlone(s, id, accept, 3);
            var c := Content(s);
            && c != [] && Inv(f) && f.pushed == s.pushed && f.thieves[id].TIdle?
            && (if accept then f.taken == s.taken + [c[0]] && Content(f) == c[1..]
                else f.taken == s.taken && Content(f) == c)
  {
    var s1 := SetThief(s, id, TRing(s.top, |s.retired|));
    var s2 := SetThief(s1, id, TValue(s.top, At(s.ring, s.top)));
    assert StepThief(s, id, accept) == s1 && StepThief(s1, id, accept) == s2;
    assert ThiefOk(s, s.thieves[id]);
    PrivateMove(s, id, TRing(s.top, |s.retired|));
    PrivateMove(s1, id, TValue(s.top, At(s.ring, s.top)));
    StealCas(s2, id, accept);
    ThiefOn(s, id, accept, 2);
    ThiefOn(s1, id, accept, 1);
    ThiefOn(s2, id, accept, 0);
  }

  /** A steal left alone takes the first task, with the owner between its calls or in a push; it comes back
      with nothing only if the deque is empty or steal_if's predicate declines the task. */
  lemma StealAlone(s: State, id: nat, accept: bool) returns (n: nat)
    requires Inv(s) && id < |s.thieves| && s.thieves[id].TIdle? && !Undecided(s.owner)
    ensures var f := ThiefAlone(s, id, accept, n);
            var c := Content(s);
            && Inv(f) && f.pushed == s.pushed && f.thieves[id].TIdle?
            && (if c != [] && accept then f.taken == s.taken + [c[0]] && Content(f) == c[1..]
                else f.taken == s.taken && Content(f) == c)
  {
    StepRefines(s, ThiefStep(id, accept));
    var s1 := StepThief(s, id, accept);
    StepRefines(s1, ThiefStep(id, accept));
    var s2 := StepThief(s1, id, accept);
    if s.top < s.bottom {
      StealDecides(s2, id, accept);
      n := 5;
      ThiefOn(s, id, accept, 4);
      ThiefOn(s1, id, accept, 3);
    } else {
      n := 2;
      ThiefOn(s, id, accept, 1);
      ThiefOn(s1, id, accept, 0);
    }
  }

  /** A cleared work flag never hides work: between owner calls it means the deque is empty. */
  lemma ClearedFlagMeansEmpty(capacity: nat, thieves: nat, events: seq<Event>)
    requires capacity > 0
    ensures var s := Run(Init(capacity, thieves), events);
            s.owner.OIdle? && !s.flag ==> Content(s) == []
  {
    RunInv(capacity, thieves, events);
  }

  // The copy loop of grow, over real buffers.
  method Grow(small: array<Task>, t: nat, b: nat) returns (bigger: array<Task>)
    requires small.Length > 0 && t <= b <= t + small.Length
    ensures bigger.Length == 2 * small.Length
    ensures forall i: nat | t <= i < b :: bigger[i % bigger.Length] == small[i % small.Length]
  {
    bigger := new Task[2 * small.Length](_ => NULL_TASK);
    var i := t;
    while i != b
      invariant t <= i <= b
      invariant forall j: nat | t <= j < i :: bigger[j % bigger.Length] == small[j % small.Length]
    {
      forall j: nat | t <= j < i ensures j % bigger.Length != i % bigger.Length {
        ModDistinct(j, i, bigger.Length);
      }
      bigger[i % bigger.Length] := small[i % small.Length];
      i := i + 1;
    }
  }
}
