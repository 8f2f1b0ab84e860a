/**
  SchedulerSemaphore (src/TaskScheduler.cpp:2961-3143) as a transition system.  A step is one
  critical section of its spinlock, or the decision a signaller takes about the waiter it popped
  once it has let go of the lock.  Waiters are tickets, numbered as they join the queue.
 */
module Semaphore {

  datatype Waiter = Waiter(cancellable: bool, token: nat)

  datatype State = State(
    initial: int,
    max: int,
    permits: int,
    queue: seq<nat>,                  // tickets
    deciding: seq<nat>,               // popped, each in the hands of one signaller
    ready: nat,                       // signals whose signaller has to take the lock (again)
    waiters: seq<Waiter>,             // history: every waiter that queued, by ticket
    signals: nat,                     // history: calls of Signal
    dropped: nat,                     // history: signals lost at the maximum
    barged: nat,                      // history: permits taken without queueing
    popped: seq<nat>,                 // history: tickets in the order they left the queue's front
    granted: seq<nat>,                // history: tickets woken with a permit
    refused: seq<nat>)                // history: tickets woken as cancelled

  datatype Event =
    | Wait(cancellable: bool, token: nat, cancelled: bool)
    | TryWait
    | Signal
    | Section                         // a signaller's critical section
    | Decide(i: nat, cancelled: bool)
    | CancelWaiters(everyone: bool, tokens: set<nat>)   // the tokens within the cancelled one

  function Init(initial: int, max: int): State {
    State(initial, max, initial, [], [], 0, [], 0, 0, 0, [], [], [])
  }

  predicate Cancellable(waiters: seq<Waiter>, t: nat) {
    t < |waiters| && waiters[t].cancellable
  }

  predicate Victim(waiters: seq<Waiter>, t: nat, everyone: bool, tokens: set<nat>) {
    Cancellable(waiters, t) && (everyone || waiters[t].token in tokens)
  }

  // The victims of a cancellation, or the others, oldest first: WaitList::TakeIf.
  function Pick(waiters: seq<Waiter>, q: seq<nat>, everyone: bool, tokens: set<nat>, victims: bool): seq<nat> {
    if q == [] then []
    else
      var rest := Pick(waiters, q[1..], everyone, tokens, victims);
      if Victim(waiters, q[0], everyone, tokens) == victims then [q[0]] + rest else rest
  }

  function Without(ts: seq<nat>, i: nat): seq<nat>
    requires i < |ts|
  {
    ts[..i] + ts[i + 1..]
  }

  function Step(s: State, e: Event): State {
    match e
    case Wait(cancellable, token, cancelled) =>
      if s.permits > 0 then s.(permits := s.permits - 1, barged := s.barged + 1)
      else if cancellable && cancelled then s
      else s.(queue := s.queue + [|s.waiters|], waiters := s.waiters + [Waiter(cancellable, token)])
    case TryWait =>
      if s.permits > 0 then s.(permits := s.permits - 1, barged := s.barged + 1) else s
    case Signal => s.(signals := s.signals + 1, ready := s.ready + 1)
    case Section =>
      if s.ready == 0 then s
      else if s.queue == [] then
        if s.permits < s.max then s.(permits := s.permits + 1, ready := s.ready - 1)
        else s.(dropped := s.dropped + 1, ready := s.ready - 1)
      else
        s.(queue := s.queue[1..], deciding := s.deciding + [s.queue[0]], ready := s.ready - 1,
           popped := s.popped + [s.queue[0]])
    case Decide(i, cancelled) =>
      if i >= |s.deciding| then s
      else
        var t := s.deciding[i];
        var s' := s.(deciding := Without(s.deciding, i));
        if Cancellable(s.waiters, t) && cancelled then s'.(ready := s.ready + 1, refused := s.refused + [t])
        else s'.(granted := s.granted + [t])
    case CancelWaiters(everyone, tokens) =>
      s.(queue := Pick(s.waiters, s.queue, everyone, tokens, false),
         refused := s.refused + Pick(s.waiters, s.queue, everyone, tokens, true))
  }

  function Run(s: State, events: seq<Event>): State {
    if events == [] then s else Step(Run(s, events[..|events| - 1]), events[|events| - 1])
  }

  // ---------- the invariant ----------

  predicate Increasing(ts: seq<nat>) {
    forall i, j | 0 <= i < j < |ts| :: ts[i] < ts[j]
  }

  // In how many places a waiter is.
  function Places(s: State, t: nat): nat {
    multiset(s.queue)[t] + multiset(s.deciding)[t] + multiset(s.granted)[t] + multiset(s.refused)[t]
  }

  ghost predicate Accounted(s: State) {
    forall t: nat :: Places(s, t) == if t < |s.waiters| then 1 else 0
  }

  predicate Conserved(s: State) {
    s.initial + s.signals == s.permits + (s.barged + |s.granted|) + s.dropped + (s.ready + |s.deciding|)
  }

  predicate Fifo(s: State) {
    && Increasing(s.popped + s.queue)
    && forall i | 0 <= i < |s.popped + s.queue| :: (s.popped + s.queue)[i] < |s.waiters|
  }

  // Only cancellable waiters are refused.
  predicate Refusals(s: State) {
    forall t | t in s.refused :: Cancellable(s.waiters, t)
  }

  // Whoever a signaller holds or has granted left by the front of the queue.
  predicate OffFront(s: State) {
    && (forall t | t in s.deciding :: t in s.popped)
    && (forall t | t in s.granted :: t in s.popped)
  }

  ghost predicate Inv(s: State) {
    && Conserved(s) && Accounted(s) && Fifo(s) && OffFront(s) && Refusals(s)
    && (s.permits > 0 ==> s.queue == [])
    && (s.initial <= s.max ==> s.permits <= s.max)
  }

  // ---------- preservation ----------

  lemma TakeOut(ts: seq<nat>, i: nat)
    requires i < |ts|
    ensures multiset(ts) == multiset(Without(ts, i)) + multiset{ts[i]}
  {
    assert ts == ts[..i] + [ts[i]] + ts[i + 1..];
  }

  // A cancellation shares the queue out between the victims and the rest.
  lemma {:induction false} PickSplits(waiters: seq<Waiter>, q: seq<nat>, everyone: bool, tokens: set<nat>)
    ensures multiset(q) == multiset(Pick(waiters, q, everyone, tokens, false)) + multiset(Pick(waiters, q, everyone, tokens, true))
    ensures forall t | t in Pick(waiters, q, everyone, tokens, true) :: Victim(waiters, t, everyone, tokens)
    ensures forall t | t in Pick(waiters, q, everyone, tokens, false) :: !Victim(waiters, t, everyone, tokens)
  {
    if q != [] {
      PickSplits(waiters, q[1..], everyone, tokens);
      assert q == [q[0]] + q[1..];
    }
  }

  // The rest keep their order behind whatever stood before the queue.
  lemma {:induction false} PickOrdered(waiters: seq<Waiter>, before: seq<nat>, q: seq<nat>, everyone: bool, tokens: set<nat>)
    requires Increasing(before + q) && forall i | 0 <= i < |before + q| :: (before + q)[i] < |waiters|
    ensures var rest := before + Pick(waiters, q, everyone, tokens, false);
            Increasing(rest) && forall i | 0 <= i < |rest| :: rest[i] < |waiters|
    decreases |q|
  {
    if q != [] {
      var first := [q[0]];
      if Victim(waiters, q[0], everyone, tokens) {
        Skip(before, q);
        PickOrdered(waiters, before, q[1..], everyone, tokens);
      } else {
        assert before + q == (before + first) + q[1..];
        PickOrdered(waiters, before + first, q[1..], everyone, tokens);
        assert before + Pick(waiters, q, everyone, tokens, false) ==
               (before + first) + Pick(waiters, q[1..], everyone, tokens, false);
      }
    }
  }

  lemma Skip(before: seq<nat>, q: seq<nat>)
    requires q != []
    ensures forall i | 0 <= i < |before + q[1..]| :: (before + q[1..])[i] == (before + q)[if i < |before| then i else i + 1]
    ensures Increasing(before + q) ==> Increasing(before + q[1..])
  {
  }

  lemma WaitInv(s: State, e: Event)
    requires Inv(s) && (e.Wait? || e.TryWait?)
    ensures Inv(Step(s, e))
  {
    var s' := Step(s, e);
    if s.permits <= 0 && e.Wait? && !(e.cancellable && e.cancelled) {
      forall t: nat ensures Places(s', t) == Places(s, t) + if t == |s.waiters| then 1 else 0 {}
      assert s'.popped + s'.queue == s.popped + s.queue + [|s.waiters|];
    } else {
      forall t: nat ensures Places(s', t) == Places(s, t) {}
    }
  }

  lemma SectionInv(s: State)
    requires Inv(s)
    ensures Inv(Step(s, Section))
  {
    var s' := Step(s, Section);
    if s.ready > 0 && s.queue != [] {
      assert s.queue == [s.queue[0]] + s.queue[1..];
      assert s'.popped + s'.queue == s.popped + s.queue;
    }
    forall t: nat ensures Places(s', t) == Places(s, t) {}
  }

  lemma DecidePlaces(s: State, i: nat, cancelled: bool, t: nat)
    ensures Places(Step(s, Decide(i, cancelled)), t) == Places(s, t)
  {
    if i < |s.deciding| { TakeOut(s.deciding, i); }
  }

  lemma DecideOffFront(s: State, i: nat, cancelled: bool)
    requires OffFront(s)
    ensures OffFront(Step(s, Decide(i, cancelled)))
  {
    if i < |s.deciding| {
      forall t | t in Without(s.deciding, i) ensures t in s.popped { assert t in s.deciding; }
      assert s.deciding[i] in s.deciding;
    }
  }

  lemma DecideInv(s: State, i: nat, cancelled: bool)
    requires Inv(s)
    ensures Inv(Step(s, Decide(i, cancelled)))
  {
    DecideOffFront(s, i, cancelled);
    forall t: nat ensures Places(Step(s, Decide(i, cancelled)), t) == Places(s, t) { DecidePlaces(s, i, cancelled, t); }
  }

  lemma CancelInv(s: State, everyone: bool, tokens: set<nat>)
    requires Inv(s)
    ensures Inv(Step(s, CancelWaiters(everyone, tokens)))
  {
    var s' := Step(s, CancelWaiters(everyone, tokens));
    PickSplits(s.waiters, s.queue, everyone, tokens);
    PickOrdered(s.waiters, s.popped, s.queue, everyone, tokens);
    forall t: nat ensures Places(s', t) == Places(s, t) {}
  }

  lemma StepInv(s: State, e: Event)
    requires Inv(s)
    ensures Inv(Step(s, e))
  {
    match e
    case Wait(_, _, _) => WaitInv(s, e);
    case TryWait => WaitInv(s, e);
    case Signal => forall t: nat ensures Places(Step(s, e), t) == Places(s, t) {}
    case Section => SectionInv(s);
    case Decide(i, cancelled) => DecideInv(s, i, cancelled);
    case CancelWaiters(everyone, tokens) => CancelInv(s, everyone, tokens);
  }

  lemma {:induction false} RunInv(initial: int, max: int, events: seq<Event>)
    ensures Inv(Run(Init(initial, max), events))
  {
    if events != [] {
      RunInv(initial, max, events[..|events| - 1]);
      StepInv(Run(Init(initial, max), events[..|events| - 1]), events[|events| - 1]);
    }
  }

  // ---------- what every run keeps ----------

  lemma {:induction false} RunConstants(s: State, events: seq<Event>)
    ensures Run(s, events).initial == s.initial && Run(s, events).max == s.max
  {
    if events != [] { RunConstants(s, events[..|events| - 1]); }
  }

  lemma GrantedBeforeQueued(s: State)
    requires Fifo(s) && OffFront(s)
    ensures forall t, u | (t in s.granted || t in s.deciding) && u in s.queue :: t < u
  {
    forall t, u | (t in s.granted || t in s.deciding) && u in s.queue ensures t < u {
      FrontIsOlder(s.popped, s.queue, t, u);
    }
  }

  /**
    Permits are conserved (a cancelled waiter takes none), a permit is never banked while a waiter
    is queued, and waiters are granted permits in the order they came: none before one still queued.
   */
  lemma Conservation(initial: int, max: int, events: seq<Event>)
    ensures var s := Run(Init(initial, max), events);
            && initial + (s.signals - s.dropped) == s.permits + (s.barged + |s.granted|) + (s.ready + |s.deciding|)
            && (s.permits > 0 ==> s.queue == [])
            && (initial <= max ==> s.permits <= max)
            && Increasing(s.popped + s.queue)
            && (forall t, u | (t in s.granted || t in s.deciding) && u in s.queue :: t < u)
  {
    var s := Run(Init(initial, max), events);
    RunConstants(Init(initial, max), events);
    assert Conserved(s) && Fifo(s) && OffFront(s) && (s.permits > 0 ==> s.queue == [])
           && (initial <= max ==> s.permits <= max) by { RunInv(initial, max, events); }
    GrantedBeforeQueued(s);
  }

  /**
    First come, first served: nobody in the queue came before a waiter that was granted a permit or
    is in a signaller's hands, so everyone who did come before has left the queue too, and nobody
    who left by the front is lost.
   */
  lemma GrantsAreFifo(initial: int, max: int, events: seq<Event>, t: nat)
    requires var s := Run(Init(initial, max), events); t in s.granted || t in s.deciding || t in s.popped
    ensures var s := Run(Init(initial, max), events);
            && (forall u | u in s.queue :: t < u)
            && (forall u: nat | u <= t :: u in s.granted || u in s.deciding || u in s.refused)
  {
    RunInv(initial, max, events);
    var s := Run(Init(initial, max), events);
    assert t in s.popped;
    forall u | u in s.queue ensures t < u { FrontIsOlder(s.popped, s.queue, t, u); }
    PoppedAreTickets(s, t);
    forall u: nat | u <= t ensures u in s.granted || u in s.deciding || u in s.refused {
      assert Places(s, u) == 1;
      assert u !in s.queue;
    }
  }

  lemma FrontIsOlder(popped: seq<nat>, queue: seq<nat>, t: nat, u: nat)
    requires Increasing(popped + queue) && t in popped && u in queue
    ensures t < u
  {
    var i :| 0 <= i < |popped| && popped[i] == t;
    var j :| 0 <= j < |queue| && queue[j] == u;
    assert (popped + queue)[i] < (popped + queue)[|popped| + j];
  }

  lemma PoppedAreTickets(s: State, t: nat)
    requires Fifo(s) && t in s.popped
    ensures t < |s.waiters|
  {
    var i :| 0 <= i < |s.popped| && s.popped[i] == t;
    assert (s.popped + s.queue)[i] == t;
  }

  /**
    Every waiter that queued is queued still, or in one signaller's hands, or was woken exactly
    once; only a cancellable one is woken without a permit.
   */
  lemma WokenOnce(initial: int, max: int, events: seq<Event>, t: nat)
    ensures var s := Run(Init(initial, max), events);
            && Places(s, t) == (if t < |s.waiters| then 1 else 0)
            && (t in s.refused ==> Cancellable(s.waiters, t))
  {
    RunInv(initial, max, events);
    var s := Run(Init(initial, max), events);
    assert Places(s, t) == if t < |s.waiters| then 1 else 0;
  }

  /** With no signal in hand, a queued waiter means that every permit there ever was has been taken. */
  lemma QueuedMeansSpent(initial: int, max: int, events: seq<Event>)
    requires var s := Run(Init(initial, max), events); s.queue != [] && s.ready == 0 && s.deciding == []
    ensures var s := Run(Init(initial, max), events); s.barged + |s.granted| >= initial + (s.signals - s.dropped)
  {
    Conservation(initial, max, events);
  }

  // ---------- what the calls of a run add up to ----------

  // The waiter a call puts in the queue: no permit was left, and it had not been cancelled by then.
  function Joins(s: State, e: Event): seq<Waiter> {
    if e.Wait? && s.permits <= 0 && !(e.cancellable && e.cancelled) then [Waiter(e.cancellable, e.token)] else []
  }

  function Arrivals(s: State, events: seq<Event>): seq<Waiter> {
    if events == [] then []
    else
      var before := events[..|events| - 1];
      Arrivals(s, before) + Joins(Run(s, before), events[|events| - 1])
  }

  datatype Kind = Signalled | Barged | Served | Dropped | Handback

  // A call or a step of the given kind, seen from the state it finds and, for a waiter, from its own Wait call.
  predicate Is(k: Kind, arrivals: seq<Waiter>, s: State, e: Event) {
    match k
    case Signalled => e.Signal?
    case Barged => (e.Wait? || e.TryWait?) && s.permits > 0
    case Served => e.Section? && s.ready > 0
    case Dropped => e.Section? && s.ready > 0 && s.queue == [] && s.permits >= s.max
    case Handback => e.Decide? && e.i < |s.deciding| && e.cancelled && Cancellable(arrivals, s.deciding[e.i])
  }

  function Times(k: Kind, s: State, events: seq<Event>): nat {
    if events == [] then 0
    else
      var before := events[..|events| - 1];
      Times(k, s, before) + if Is(k, Arrivals(s, before), Run(s, before), events[|events| - 1]) then 1 else 0
  }

  lemma StepTally(s: State, arrivals: seq<Waiter>, e: Event)
    requires s.waiters == arrivals
    ensures var s' := Step(s, e);
            && s'.waiters == arrivals + Joins(s, e)
            && s'.signals == s.signals + (if Is(Signalled, arrivals, s, e) then 1 else 0)
            && s'.barged == s.barged + (if Is(Barged, arrivals, s, e) then 1 else 0)
            && s'.dropped == s.dropped + (if Is(Dropped, arrivals, s, e) then 1 else 0)
            && s'.ready == s.ready + (if Is(Signalled, arrivals, s, e) || Is(Handback, arrivals, s, e) then 1 else 0)
                           - (if Is(Served, arrivals, s, e) then 1 else 0)
  {
  }

  /**
    The books are those of the calls: tickets are the Wait calls that had to queue, with what they
    asked for; a permit is taken without queueing by exactly the calls that found one; a signal is
    dropped only at the maximum; and a signaller is owed its section once for its call and once
    for every cancelled waiter it woke.
   */
  lemma {:induction false} BooksAreTheCalls(initial: int, max: int, events: seq<Event>)
    ensures var s0 := Init(initial, max);
            var s := Run(s0, events);
            && s.waiters == Arrivals(s0, events)
            && s.signals == Times(Signalled, s0, events) && s.barged == Times(Barged, s0, events)
            && s.dropped == Times(Dropped, s0, events)
            && s.ready == Times(Signalled, s0, events) + Times(Handback, s0, events) - Times(Served, s0, events)
  {
    if events != [] {
      var s0, before := Init(initial, max), events[..|events| - 1];
      BooksAreTheCalls(initial, max, before);
      StepTally(Run(s0, before), Arrivals(s0, before), events[|events| - 1]);
    }
  }

  /** A decision: the waiter was cancelled and asked to be told so, and the signal is in hand again; or it
      has the permit.  Nobody else is affected. */
  lemma DecisionStands(initial: int, max: int, events: seq<Event>, i: nat, cancelled: bool)
    requires i < |Run(Init(initial, max), events).deciding|
    ensures var s := Run(Init(initial, max), events);
            var s' := Step(s, Decide(i, cancelled));
            var t := s.deciding[i];
            && t !in s'.deciding && s'.queue == s.queue && s'.permits == s.permits
            && (if cancelled && Cancellable(Arrivals(Init(initial, max), events), t)
                then s'.refused == s.refused + [t] && s'.granted == s.granted && s'.ready == s.ready + 1
                else s'.granted == s.granted + [t] && s'.refused == s.refused && s'.ready == s.ready)
  {
    BooksAreTheCalls(initial, max, events);
    RunInv(initial, max, events);
    var s := Run(Init(initial, max), events);
    var s' := Step(s, Decide(i, cancelled));
    StepInv(s, Decide(i, cancelled));
    var t := s.deciding[i];
    assert Places(s', t) <= 1;
    assert t in s'.granted + s'.refused;
  }

  /** A cancellation refuses exactly the queued waiters that can be cancelled and whose token, given to
      their Wait, is within the cancelled one; the others stay, in order. */
  lemma CancelRefusesExactly(initial: int, max: int, events: seq<Event>, everyone: bool, tokens: set<nat>)
    ensures var s := Run(Init(initial, max), events);
            var s' := Step(s, CancelWaiters(everyone, tokens));
            var arrivals := Arrivals(Init(initial, max), events);
            && (forall t | t in s.queue ::
                  if Cancellable(arrivals, t) && (everyone || arrivals[t].token in tokens)
                  then t in s'.refused && t !in s'.queue
                  else t in s'.queue && t !in s'.refused)
            && (forall t | t in s'.queue :: t in s.queue) && Increasing(s'.queue)
            && |s'.queue| + |s'.refused| == |s.queue| + |s.refused|
            && s.refused <= s'.refused && s'.granted == s.granted && s'.permits == s.permits && s'.ready == s.ready
  {
    BooksAreTheCalls(initial, max, events);
    RunInv(initial, max, events);
    var s := Run(Init(initial, max), events);
    var s' := Step(s, CancelWaiters(everyone, tokens));
    StepInv(s, CancelWaiters(everyone, tokens));
    PickSplits(s.waiters, s.queue, everyone, tokens);
    var rest, victims := s'.queue, Pick(s.waiters, s.queue, everyone, tokens, true);
    assert |multiset(s.queue)| == |multiset(rest)| + |multiset(victims)|;
    forall t | t in s.queue
      ensures if Victim(s.waiters, t, everyone, tokens) then t in victims && t !in rest else t in rest && t !in victims
      ensures t !in s.refused
    {
      assert t in multiset(s.queue) && Places(s, t) == 1;
      assert t in multiset(rest) || t in multiset(victims);
    }
    forall t | t in rest ensures t in s.queue { assert t in multiset(rest) && t in multiset(s.queue); }
    assert Increasing(rest) by { TailIncreasing(s'.popped, rest); }
  }

  lemma TailIncreasing(a: seq<nat>, b: seq<nat>)
    requires Increasing(a + b)
    ensures Increasing(b)
  {
    forall i, j | 0 <= i < j < |b| ensures b[i] < b[j] { assert (a + b)[|a| + i] < (a + b)[|a| + j]; }
  }

  predicate Cancels(e: Event) {
    e.CancelWaiters? || (e.Decide? && e.cancelled)
  }

  /** Nobody is told that it was cancelled in a run without a cancellation. */
  lemma {:induction false} NoCancellationNoRefusal(initial: int, max: int, events: seq<Event>)
    requires forall i | 0 <= i < |events| :: !Cancels(events[i])
    ensures Run(Init(initial, max), events).refused == []
  {
    if events != [] {
      assert !Cancels(events[|events| - 1]);
      NoCancellationNoRefusal(initial, max, events[..|events| - 1]);
    }
  }
}
