/**
  RunLazyRange and RunLazyPiece (src/TaskScheduler.cpp:1122-1211): the caller seeds contiguous
  pieces, every piece runs grain by grain and may give its upper half away, and the wait group
  counts the pieces that have not finished.
 */
module LazyRange {
  import opened Division
  import opened ParallelFor

  datatype Stage =
    | Running
    | Ended                            // the range is done; the piece's Done comes next
    | Gone

  // Piece 0 is the caller's own; it runs once every part has been seeded.
  datatype State = State(
    start: int,
    end: int,
    grain: int,
    parts: nat,
    seeded: nat,                       // parts below this have been seeded
    left: seq<Range>,                  // what each piece has still to do
    stages: seq<Stage>,
    alive: seq<bool>,                  // the pieces the group counts
    count: int,                        // the wait group
    calls: seq<Range>,
    returned: bool)

  datatype Event =
    | Seed(gotTask: bool)
    | Split(p: nat)                    // the thread's deque is empty and a task could be allocated
    | Grain(p: nat)
    | Last(p: nat)
    | Done(p: nat)
    | Return

  // The boundary below part i.
  function Bound(start: int, end: int, parts: nat, i: nat): int
    requires parts >= 1
  {
    start + (end - start) * i / parts
  }

  function Edge(s: State, i: nat): int
    requires s.parts >= 1
  {
    Bound(s.start, s.end, s.parts, i)
  }

  function Init(start: int, end: int, grain: int, parts: nat): State
    requires parts >= 1
  {
    State(start, end, grain, parts, 1, [Range(start, Bound(start, end, parts, 1))], [Running], [true], 1, [], false)
  }

  predicate Shape(s: State) {
    && |s.left| == |s.stages| == |s.alive| >= 1 && s.grain >= 1 && s.start <= s.end && 1 <= s.seeded <= s.parts
  }

  // May piece p take a step?
  predicate Runs(s: State, p: nat) {
    p < |s.stages| && p < |s.left| && s.stages[p] == Running && (p == 0 ==> s.seeded == s.parts)
  }

  function NewPiece(s: State, r: Range): State {
    s.(left := s.left + [r], stages := s.stages + [Running], alive := s.alive + [true], count := s.count + 1)
  }

  function Step(s: State, e: Event): (s': State)
    requires Shape(s)
    ensures Shape(s') && s'.start == s.start && s'.end == s.end && s'.parts == s.parts
  {
    match e
    case Seed(gotTask) =>
      if s.seeded == s.parts then s
      else
        var r := Range(Edge(s, s.seeded), Edge(s, s.seeded + 1));
        var t := s.(seeded := s.seeded + 1);
        if gotTask then NewPiece(t, r) else t.(calls := s.calls + [r])
    case Split(p) =>
      if !Runs(s, p) then s
      else
        var Range(lo, hi) := s.left[p];
        if hi - lo > s.grain && hi - lo >= 2 * s.grain then
          var mid := lo + (hi - lo) / 2;
          NewPiece(s.(left := s.left[p := Range(lo, mid)]), Range(mid, hi))
        else s
    case Grain(p) =>
      if !Runs(s, p) then s
      else
        var Range(lo, hi) := s.left[p];
        if hi - lo > s.grain then
          s.(left := s.left[p := Range(lo + s.grain, hi)], calls := s.calls + [Range(lo, lo + s.grain)])
        else s
    case Last(p) =>
      if !Runs(s, p) then s
      else
        var Range(lo, hi) := s.left[p];
        if hi - lo > s.grain then s
        else
          var t := s.(left := s.left[p := Range(hi, hi)], stages := s.stages[p := Ended]);
          if lo < hi then t.(calls := s.calls + [Range(lo, hi)]) else t
    case Done(p) =>
      if p >= |s.stages| || s.stages[p] != Ended then s
      else s.(stages := s.stages[p := Gone], alive := s.alive[p := false], count := s.count - 1)
    case Return =>
      if s.stages[0] == Gone && s.count == 0 then s.(returned := true) else s
  }

  function Run(s: State, events: seq<Event>): (s': State)
    requires Shape(s)
    ensures Shape(s') && s'.start == s.start && s'.end == s.end && s'.parts == s.parts
  {
    if events == [] then s else Step(Run(s, events[..|events| - 1]), events[|events| - 1])
  }

  // ---------- the invariant ----------

  // Every index was called for, or belongs to one piece, or to a part not seeded yet.
  ghost predicate CoverOk(s: State)
    requires Shape(s)
  {
    forall i :: Owned(s, i) == In(Range(s.start, s.end), i)
  }

  function Owned(s: State, i: int): nat
    requires s.parts >= 1
  {
    Cover(s.calls, i) + Cover(s.left, i) + In(Range(Edge(s, s.seeded), s.end), i)
  }

  predicate StagesOk(s: State)
    requires Shape(s)
  {
    && (forall p | 0 <= p < |s.stages| :: s.alive[p] <==> s.stages[p] != Gone)
    && (forall p | 0 <= p < |s.stages| && s.stages[p] != Running :: s.left[p].hi <= s.left[p].lo)
    && (s.stages[0] != Running ==> s.seeded == s.parts)
    && s.count == CountTrue(s.alive)
    && (s.returned ==> s.stages[0] == Gone && s.count == 0)
  }

  ghost predicate Inv(s: State) {
    Shape(s) && CoverOk(s) && StagesOk(s)
  }

  // ---------- preservation ----------

  // The boundaries climb from start to end.
  lemma BoundsClimb(start: int, end: int, parts: nat, i: nat)
    requires start <= end && i < parts
    ensures start <= Bound(start, end, parts, i) <= Bound(start, end, parts, i + 1) <= end
    ensures Bound(start, end, parts, parts) == end && Bound(start, end, parts, 0) == start
  {
    var n := end - start;
    Multiply(n, i, i + 1);
    Multiply(n, i + 1, parts);
    DivMonotone(n * i, n * (i + 1), parts);
    DivMonotone(n * (i + 1), n * parts, parts);
    DivMonotone(0, n * i, parts);
    DivCancels(n, parts);
  }

  lemma Multiply(n: nat, a: nat, b: nat)
    requires a <= b
    ensures n * a <= n * b
  {
  }

  lemma InParts(lo: int, mid: int, hi: int, i: int)
    requires lo <= mid <= hi
    ensures In(Range(lo, hi), i) == In(Range(lo, mid), i) + In(Range(mid, hi), i)
  {
  }

  lemma SeedCover(s: State, gotTask: bool, i: int)
    requires Shape(s)
    ensures Owned(Step(s, Seed(gotTask)), i) == Owned(s, i)
  {
    if s.seeded < s.parts {
      var lo, mid := Edge(s, s.seeded), Edge(s, s.seeded + 1);
      assert lo <= mid <= s.end by { BoundsClimb(s.start, s.end, s.parts, s.seeded); }
      InParts(lo, mid, s.end, i);
      CoverAppend(s.left, Range(lo, mid), i);
      CoverAppend(s.calls, Range(lo, mid), i);
    }
  }

  lemma SplitCover(s: State, p: nat, i: int)
    requires Inv(s)
    ensures Owned(Step(s, Split(p)), i) == Owned(s, i)
  {
    if Runs(s, p) {
      var Range(lo, hi) := s.left[p];
      var mid := lo + (hi - lo) / 2;
      CoverSet(s.left, p, Range(lo, mid), i);
      CoverAppend(s.left[p := Range(lo, mid)], Range(mid, hi), i);
    }
  }

  lemma WorkCover(s: State, e: Event, i: int)
    requires Inv(s) && (e.Grain? || e.Last?)
    ensures Owned(Step(s, e), i) == Owned(s, i)
  {
    if Runs(s, e.p) {
      var Range(lo, hi) := s.left[e.p];
      CoverSet(s.left, e.p, Step(s, e).left[e.p], i);
      CoverAppend(s.calls, Range(lo, lo + s.grain), i);
      CoverAppend(s.calls, Range(lo, hi), i);
    }
  }

  lemma StepCover(s: State, e: Event)
    requires Inv(s)
    ensures CoverOk(Step(s, e))
  {
    forall i ensures Owned(Step(s, e), i) == In(Range(s.start, s.end), i) {
      assert Owned(s, i) == In(Range(s.start, s.end), i);
      match e
      case Seed(gotTask) => SeedCover(s, gotTask, i);
      case Split(p) => SplitCover(s, p, i);
      case Grain(_) => WorkCover(s, e, i);
      case Last(_) => WorkCover(s, e, i);
      case Done(_) =>
      case Return =>
    }
  }

  lemma GrowStages(s: State, e: Event)
    requires Shape(s) && StagesOk(s) && (e.Seed? || e.Split?)
    ensures StagesOk(Step(s, e))
  {
    CountAppend(s.alive, true);
    if s.returned { CountZero(s.alive); }
  }

  lemma WorkStages(s: State, e: Event)
    requires Shape(s) && StagesOk(s) && (e.Grain? || e.Last?)
    ensures StagesOk(Step(s, e))
  {
  }

  lemma DoneStages(s: State, p: nat)
    requires Shape(s) && StagesOk(s)
    ensures StagesOk(Step(s, Done(p)))
  {
    if p < |s.alive| { CountSet(s.alive, p, false); }
    if s.returned { CountZero(s.alive); }
  }

  lemma StepStages(s: State, e: Event)
    requires Shape(s) && StagesOk(s)
    ensures StagesOk(Step(s, e))
  {
    match e
    case Seed(_) => GrowStages(s, e);
    case Split(p) => GrowStages(s, e);
    case Grain(_) => WorkStages(s, e);
    case Last(_) => WorkStages(s, e);
    case Done(p) => DoneStages(s, p);
    case Return =>
  }

  lemma StepInv(s: State, e: Event)
    requires Inv(s)
    ensures Inv(Step(s, e))
  {
    StepCover(s, e);
    StepStages(s, e);
  }

  lemma {:induction false} RunInv(start: int, end: int, grain: int, parts: nat, events: seq<Event>)
    requires grain >= 1 && start <= end && parts >= 1
    ensures Inv(Run(Init(start, end, grain, parts), events))
  {
    var s := Init(start, end, grain, parts);
    if events == [] {
      BoundsClimb(start, end, parts, 0);
      if parts > 1 { BoundsClimb(start, end, parts, 1); }
      forall i ensures Owned(s, i) == In(Range(start, end), i) {
        CoverAppend([], s.left[0], i);
        assert [] + [s.left[0]] == s.left;
      }
      CountAppend([], true);
      assert [] + [true] == s.alive;
    } else {
      RunInv(start, end, grain, parts, events[..|events| - 1]);
      StepInv(Run(s, events[..|events| - 1]), events[|events| - 1]);
    }
  }

  /** When RunLazyRange returns, every index has been given to the body exactly once, whatever was split, seeded or refused. */
  lemma LazyExactlyOnce(start: int, end: int, grain: int, parts: nat, events: seq<Event>)
    requires grain >= 1 && start <= end && parts >= 1 && Run(Init(start, end, grain, parts), events).returned
    ensures ExactlyOnce(Run(Init(start, end, grain, parts), events).calls, start, end)
  {
    RunInv(start, end, grain, parts, events);
    var s := Run(Init(start, end, grain, parts), events);
    CountZero(s.alive);
    BoundsClimb(start, end, parts, 0);
    forall i ensures Cover(s.calls, i) == In(Range(start, end), i) {
      assert Owned(s, i) == In(Range(s.start, s.end), i);
      CoverEmpty(s.left, i);
    }
  }

  /** The wait group is not empty while any piece has work left, so nobody returns early. */
  lemma CountGuardsWork(start: int, end: int, grain: int, parts: nat, events: seq<Event>, p: nat)
    requires grain >= 1 && start <= end && parts >= 1
    requires var s := Run(Init(start, end, grain, parts), events);
             p < |s.left| && s.left[p].lo < s.left[p].hi
    ensures var s := Run(Init(start, end, grain, parts), events); s.count > 0 && !s.returned
  {
    RunInv(start, end, grain, parts, events);
    var s := Run(Init(start, end, grain, parts), events);
    if s.count == 0 { CountZero(s.alive); }
  }

  lemma SomethingMoves(s: State) returns (e: Event)
    requires Shape(s) && StagesOk(s) && !s.returned
    ensures Step(s, e) != s
  {
    if s.seeded < s.parts { e := Seed(false); }
    else if p :| 0 <= p < |s.stages| && s.stages[p] == Running {
      e := if s.left[p].hi - s.left[p].lo > s.grain then Grain(p) else Last(p);
      assert e.Grain? ==> Step(s, e).left[p].lo > s.left[p].lo;
      assert e.Last? ==> Step(s, e).stages[p] == Ended;
    } else if p :| 0 <= p < |s.stages| && s.stages[p] == Ended {
      e := Done(p);
      assert Step(s, e).stages[p] == Gone;
    } else {
      e := Return;
      CountNone(s.alive);
    }
  }

  /** Never stuck: until the call returns, some piece, or the caller, has a step to take. */
  lemma LazyNeverStuck(start: int, end: int, grain: int, parts: nat, events: seq<Event>) returns (e: Event)
    requires start <= end && grain >= 1 && parts >= 1 && !Run(Init(start, end, grain, parts), events).returned
    ensures Step(Run(Init(start, end, grain, parts), events), e) != Run(Init(start, end, grain, parts), events)
  {
    RunInv(start, end, grain, parts, events);
    e := SomethingMoves(Run(Init(start, end, grain, parts), events));
  }

  /** A split shares a piece out evenly: the two halves meet, neither is smaller than the grain, and they differ by
      at most one. */
  lemma SplitIsEven(s: State, p: nat)
    requires Shape(s) && Runs(s, p) && s.left[p].hi - s.left[p].lo >= 2 * s.grain && s.left[p].hi - s.left[p].lo > s.grain
    ensures var s' := Step(s, Split(p));
            var r := s.left[p];
            && |s'.left| == |s.left| + 1 && s'.stages[|s.left|] == Running && s'.alive[|s.left|]
            && s'.left[p].lo == r.lo && s'.left[p].hi == s'.left[|s.left|].lo && s'.left[|s.left|].hi == r.hi
            && s'.left[p].hi - r.lo >= s.grain && r.hi - s'.left[p].hi >= s.grain
            && 0 <= (r.hi - s'.left[p].hi) - (s'.left[p].hi - r.lo) <= 1
  {
  }
}
