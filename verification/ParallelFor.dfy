/**
  ParallelFor (src/TaskScheduler.cpp:874-918, 1006-1211): how a range is probed, split and run.
  The body is applied to index ranges; `calls` is the history of those applications.  Indices are
  mathematical integers.
 */
module ParallelFor {

  datatype Range = Range(lo: int, hi: int)

  function In(r: Range, i: int): nat {
    if r.lo <= i < r.hi then 1 else 0
  }

  // How many of the ranges hold index i.
  function Cover(rs: seq<Range>, i: int): nat {
    if rs == [] then 0 else Cover(rs[..|rs| - 1], i) + In(rs[|rs| - 1], i)
  }

  lemma {:induction false} CoverAppend(rs: seq<Range>, r: Range, i: int)
    ensures Cover(rs + [r], i) == Cover(rs, i) + In(r, i)
  {
    assert (rs + [r])[..|rs|] == rs;
  }

  lemma {:induction false} CoverSet(rs: seq<Range>, k: nat, r: Range, i: int)
    requires k < |rs|
    ensures Cover(rs[k := r], i) == Cover(rs, i) - In(rs[k], i) + In(r, i)
  {
    var last := |rs| - 1;
    if k == last {
      assert rs[k := r][..last] == rs[..last];
    } else {
      assert rs[k := r][..last] == rs[..last][k := r];
      CoverSet(rs[..last], k, r, i);
    }
  }

  lemma {:induction false} CoverEmpty(rs: seq<Range>, i: int)
    requires forall k | 0 <= k < |rs| :: rs[k].hi <= rs[k].lo
    ensures Cover(rs, i) == 0
  {
    if rs != [] { CoverEmpty(rs[..|rs| - 1], i); }
  }

  // The calls apply the body to every index of [lo, hi) once, and to no other.
  ghost predicate ExactlyOnce(calls: seq<Range>, lo: int, hi: int) {
    forall i :: Cover(calls, i) == In(Range(lo, hi), i)
  }

  function CountTrue(bs: seq<bool>): nat {
    if bs == [] then 0 else CountTrue(bs[..|bs| - 1]) + if bs[|bs| - 1] then 1 else 0
  }

  lemma {:induction false} CountSet(bs: seq<bool>, k: nat, b: bool)
    requires k < |bs|
    ensures CountTrue(bs[k := b]) == CountTrue(bs) - (if bs[k] then 1 else 0) + if b then 1 else 0
  {
    var last := |bs| - 1;
    if k == last {
      assert bs[k := b][..last] == bs[..last];
    } else {
      assert bs[k := b][..last] == bs[..last][k := b];
      CountSet(bs[..last], k, b);
    }
  }

  lemma CountAppend(bs: seq<bool>, b: bool)
    ensures CountTrue(bs + [b]) == CountTrue(bs) + if b then 1 else 0
  {
    assert (bs + [b])[..|bs|] == bs;
  }

  lemma {:induction false} CountZero(bs: seq<bool>)
    requires CountTrue(bs) == 0
    ensures forall k | 0 <= k < |bs| :: !bs[k]
  {
    if bs != [] { CountZero(bs[..|bs| - 1]); }
  }

  lemma {:induction false} CountNone(bs: seq<bool>)
    requires forall k | 0 <= k < |bs| :: !bs[k]
    ensures CountTrue(bs) == 0
  {
    if bs != [] { CountNone(bs[..|bs| - 1]); }
  }

  lemma {:induction false} CountAll(n: nat)
    ensures CountTrue(seq(n, _ => true)) == n
  {
    if n > 0 {
      assert seq(n, _ => true)[..n - 1] == seq(n - 1, _ => true);
      CountAll(n - 1);
    }
  }
}

/** RunCursorRange: lanes and the caller take slices off one shared cursor. */
module CursorRange {
  import opened ParallelFor

  // Runner 0 is the caller; runner k is lane k - 1.
  datatype Stage =
    | Pending                         // the caller has still to create the lane
    | Taking                          // in the loop, about to advance the cursor
    | Holding                         // has a slice, about to call the body
    | Leaving                         // saw the end; a lane's Done comes next
    | Gone

  datatype State = State(
    start: int,
    end: int,
    grain: int,
    cursor: int,
    stages: seq<Stage>,
    held: seq<Range>,
    alive: seq<bool>,                 // the runners the group counts; never the caller
    count: int,                       // the wait group
    created: nat,                     // runners below this have been created, or refused
    calls: seq<Range>,
    returned: bool)

  datatype Event =
    | Create(accepted: bool)          // the next lane's task is created and pushed, or not
    | Take(k: nat)
    | Call(k: nat)
    | Done(k: nat)
    | Return

  function Init(start: int, end: int, grain: int, lanes: nat): State {
    State(start, end, grain, start, [Taking] + seq(lanes, _ => Pending), seq(lanes + 1, _ => Range(start, start)),
          [false] + seq(lanes, _ => true), lanes, 1, [], false)
  }

  predicate Shape(s: State) {
    && |s.stages| == |s.held| == |s.alive| >= 1 && s.grain >= 1 && s.start <= s.end && 1 <= s.created <= |s.stages|
  }

  function Empty(s: State): Range {
    Range(s.start, s.start)
  }

  function Step(s: State, e: Event): (s': State)
    requires Shape(s)
    ensures Shape(s') && s'.start == s.start && s'.end == s.end
  {
    match e
    case Create(accepted) =>
      if s.created == |s.stages| || s.returned then s
      else if accepted then s.(created := s.created + 1, stages := s.stages[s.created := Taking])
      else s.(created := s.created + 1, stages := s.stages[s.created := Gone],
              alive := s.alive[s.created := false], count := s.count - 1)
    case Take(k) =>
      if k >= |s.stages| || s.stages[k] != Taking || (k == 0 && s.created < |s.stages|) then s
      else
        var t := s.(cursor := s.cursor + s.grain);
        if s.cursor >= s.end then t.(stages := s.stages[k := Leaving])
        else
          var hi := if s.cursor + s.grain > s.end then s.end else s.cursor + s.grain;
          t.(stages := s.stages[k := Holding], held := s.held[k := Range(s.cursor, hi)])
    case Call(k) =>
      if k >= |s.stages| || s.stages[k] != Holding then s
      else s.(stages := s.stages[k := Taking], held := s.held[k := Empty(s)], calls := s.calls + [s.held[k]])
    case Done(k) =>
      if k == 0 || k >= |s.stages| || s.stages[k] != Leaving then s
      else s.(stages := s.stages[k := Gone], alive := s.alive[k := false], count := s.count - 1)
    case Return =>
      if s.stages[0] == Leaving && s.count == 0 then s.(returned := true) else s
  }

  function Run(s: State, events: seq<Event>): (s': State)
    requires Shape(s)
    ensures Shape(s') && s'.start == s.start && s'.end == s.end
  {
    if events == [] then s else Step(Run(s, events[..|events| - 1]), events[|events| - 1])
  }

  function Min(a: int, b: int): int {
    if a < b then a else b
  }

  // Every index the cursor has passed was called for, or is in one runner's hands.
  ghost predicate CoverOk(s: State) {
    forall i :: Cover(s.calls, i) + Cover(s.held, i) == In(Range(s.start, Min(s.cursor, s.end)), i)
  }

  predicate StagesOk(s: State)
    requires Shape(s)
  {
    && (forall k | 0 <= k < |s.stages| && s.stages[k] != Holding :: s.held[k] == Empty(s))
    && (forall k | 1 <= k < |s.stages| :: s.alive[k] <==> s.stages[k] != Gone)
    && (forall k | 0 <= k < |s.stages| :: s.stages[k] == Pending <==> k >= s.created)
    && (forall k | 0 <= k < |s.stages| && s.stages[k] == Leaving :: s.cursor >= s.end)
    && s.stages[0] != Gone && !s.alive[0] && s.start <= s.cursor
    && s.count == CountTrue(s.alive)
    && (s.returned ==> s.count == 0 && s.stages[0] == Leaving)
  }

  ghost predicate Inv(s: State) {
    Shape(s) && CoverOk(s) && StagesOk(s)
  }

  lemma TakeCover(s: State, k: nat, i: int)
    requires Inv(s)
    ensures var s' := Step(s, Take(k));
            Cover(s'.calls, i) + Cover(s'.held, i) == In(Range(s.start, Min(s'.cursor, s.end)), i)
  {
    var s' := Step(s, Take(k));
    assert Cover(s.calls, i) + Cover(s.held, i) == In(Range(s.start, Min(s.cursor, s.end)), i);
    if k < |s.stages| { CoverSet(s.held, k, s'.held[k], i); }
  }

  lemma TakeInv(s: State, k: nat)
    requires Inv(s)
    ensures Inv(Step(s, Take(k)))
  {
    forall i { TakeCover(s, k, i); }
  }

  lemma CallCover(s: State, k: nat, i: int)
    requires Inv(s)
    ensures var s' := Step(s, Call(k));
            Cover(s'.calls, i) + Cover(s'.held, i) == In(Range(s.start, Min(s'.cursor, s.end)), i)
  {
    assert Cover(s.calls, i) + Cover(s.held, i) == In(Range(s.start, Min(s.cursor, s.end)), i);
    if k < |s.stages| {
      CoverSet(s.held, k, Empty(s), i);
      CoverAppend(s.calls, s.held[k], i);
    }
  }

  lemma CallInv(s: State, k: nat)
    requires Inv(s)
    ensures Inv(Step(s, Call(k)))
  {
    forall i { CallCover(s, k, i); }
  }

  lemma CreateInv(s: State, accepted: bool)
    requires Inv(s)
    ensures Inv(Step(s, Create(accepted)))
  {
    if s.created < |s.stages| { CountSet(s.alive, s.created, false); }
    assert CoverOk(Step(s, Create(accepted)));
  }

  lemma DoneInv(s: State, k: nat)
    requires Inv(s)
    ensures Inv(Step(s, Done(k)))
  {
    if k < |s.stages| { CountSet(s.alive, k, false); }
    assert CoverOk(Step(s, Done(k)));
  }

  lemma StepInv(s: State, e: Event)
    requires Inv(s)
    ensures Inv(Step(s, e))
  {
    match e
    case Take(k) => TakeInv(s, k);
    case Call(k) => CallInv(s, k);
    case Create(accepted) => CreateInv(s, accepted);
    case Done(k) => DoneInv(s, k);
    case Return =>
  }

  lemma {:induction false} RunInv(start: int, end: int, grain: int, lanes: nat, events: seq<Event>)
    requires grain >= 1 && start <= end
    ensures Inv(Run(Init(start, end, grain, lanes), events))
  {
    var s := Init(start, end, grain, lanes);
    if events == [] {
      forall i ensures Cover(s.held, i) == 0 { CoverEmpty(s.held, i); }
      CountLanes(lanes);
    } else {
      RunInv(start, end, grain, lanes, events[..|events| - 1]);
      StepInv(Run(s, events[..|events| - 1]), events[|events| - 1]);
    }
  }

  lemma {:induction false} CountLanes(lanes: nat)
    ensures CountTrue([false] + seq(lanes, _ => true)) == lanes
  {
    var bs := [false] + seq(lanes, _ => true);
    if lanes > 0 {
      assert bs[..lanes] == [false] + seq(lanes - 1, _ => true);
      CountLanes(lanes - 1);
    }
  }

  /** When RunCursorRange returns, every index has been given to the body exactly once, whatever the interleaving. */
  lemma CursorExactlyOnce(start: int, end: int, grain: int, lanes: nat, events: seq<Event>)
    requires grain >= 1 && start <= end && Run(Init(start, end, grain, lanes), events).returned
    ensures ExactlyOnce(Run(Init(start, end, grain, lanes), events).calls, start, end)
  {
    RunInv(start, end, grain, lanes, events);
    var s := Run(Init(start, end, grain, lanes), events);
    CountZero(s.alive);
    forall i ensures Cover(s.calls, i) == In(Range(start, end), i) {
      assert Cover(s.calls, i) + Cover(s.held, i) == In(Range(s.start, Min(s.cursor, s.end)), i);
      CoverEmpty(s.held, i);
    }
  }

  /** At every moment no index has been given to the body twice, and none outside the range ever. */
  lemma CursorNeverTwice(start: int, end: int, grain: int, lanes: nat, events: seq<Event>, i: int)
    requires grain >= 1 && start <= end
    ensures Cover(Run(Init(start, end, grain, lanes), events).calls, i) <= In(Range(start, end), i)
  {
    RunInv(start, end, grain, lanes, events);
    var s := Run(Init(start, end, grain, lanes), events);
    assert Cover(s.calls, i) + Cover(s.held, i) == In(Range(s.start, Min(s.cursor, s.end)), i);
  }

  lemma SomethingMoves(s: State) returns (e: Event)
    requires Shape(s) && StagesOk(s) && !s.returned
    ensures Step(s, e) != s
  {
    if s.created < |s.stages| { e := Create(true); }
    else if k :| 0 <= k < |s.stages| && s.stages[k] == Taking { e := Take(k); }
    else if k :| 0 <= k < |s.stages| && s.stages[k] == Holding {
      e := Call(k);
      assert Step(s, e).stages[k] == Taking;
    } else if k :| 1 <= k < |s.stages| && s.stages[k] == Leaving {
      e := Done(k);
      assert Step(s, e).stages[k] == Gone;
    } else {
      e := Return;
      CountNone(s.alive);
    }
  }

  /** Never stuck: until the call returns, some runner, or the caller, has a step to take. */
  lemma CursorNeverStuck(start: int, end: int, grain: int, lanes: nat, events: seq<Event>) returns (e: Event)
    requires start <= end && grain >= 1 && !Run(Init(start, end, grain, lanes), events).returned
    ensures Step(Run(Init(start, end, grain, lanes), events), e) != Run(Init(start, end, grain, lanes), events)
  {
    RunInv(start, end, grain, lanes, events);
    e := SomethingMoves(Run(Init(start, end, grain, lanes), events));
  }

  predicate SliceOk(r: Range, grain: int) {
    r.lo < r.hi <= r.lo + grain
  }

  predicate SlicesOk(s: State)
    requires Shape(s)
  {
    && (forall j | 0 <= j < |s.calls| :: SliceOk(s.calls[j], s.grain))
    && (forall k | 0 <= k < |s.stages| && s.stages[k] == Holding :: SliceOk(s.held[k], s.grain))
  }

  /** The body is never given an empty slice, nor one larger than the grain. */
  lemma {:induction false} SliceSizes(start: int, end: int, grain: int, lanes: nat, events: seq<Event>)
    requires start <= end && grain >= 1
    ensures var s := Run(Init(start, end, grain, lanes), events); SlicesOk(s) && s.grain == grain
  {
    if events != [] {
      SliceSizes(start, end, grain, lanes, events[..|events| - 1]);
      SliceStep(Run(Init(start, end, grain, lanes), events[..|events| - 1]), events[|events| - 1]);
    }
  }

  lemma SliceStep(s: State, e: Event)
    requires Shape(s) && SlicesOk(s)
    ensures SlicesOk(Step(s, e)) && Step(s, e).grain == s.grain
  {
  }
}
