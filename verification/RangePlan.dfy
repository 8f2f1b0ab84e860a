/**
  ParallelFor's own body (src/TaskScheduler.cpp:1006-1116) and the set-up of its two ways of
  running a range (874-894, 1157-1180): the probe, the grain, the choice of mode.  The clock, the
  remembered cost and the square root that gives the width are parameters.
 */
module RangePlan {
  import opened ParallelFor
  import CursorRange
  import LazyRange
  import opened Division

  const MinGrain: int := 16
  const ProbeFloorNs: int := 500
  const LazyPieceNs: int := 500
  const Mega: int := 1_000_000

  datatype Mode = Auto | Cursor | LazyPCore

  datatype Env = Env(
    serial: bool,
    poolActive: bool,
    workers: nat,
    measuredWidth: bool,
    rememberedNs: int,           // remembered cost of a million indices; not positive: none, or due for a new probe
    minIters: int,               // workers times the minimum per worker
    leavesPerWorker: nat)

  datatype Plan =
    | Finished                                           // everything was run in place
    | ByCursor(begin: int, grain: int)
    | ByPieces(begin: int, grain: int, width: nat)

  function Max(a: int, b: int): int {
    if a < b then b else a
  }

  // Where the part of the range that the plan leaves to do begins.
  function Rest(p: Plan, end: int): int {
    if p.Finished? then end else p.begin
  }

  lemma CoverConcat(a: seq<Range>, b: seq<Range>, i: int)
    ensures Cover(a + b, i) == Cover(a, i) + Cover(b, i)
  {
    if b == [] {
      assert a + b == a;
    } else {
      assert (a + b)[..|a + b| - 1] == a + b[..|b| - 1];
      CoverConcat(a, b[..|b| - 1], i);
    }
  }

  lemma OnceThen(a: seq<Range>, b: seq<Range>, lo: int, mid: int, hi: int)
    requires ExactlyOnce(a, lo, mid) && ExactlyOnce(b, mid, hi) && lo <= mid <= hi
    ensures ExactlyOnce(a + b, lo, hi)
  {
    forall i ensures Cover(a + b, i) == In(Range(lo, hi), i) {
      CoverConcat(a, b, i);
      assert Cover(a, i) == In(Range(lo, mid), i) && Cover(b, i) == In(Range(mid, hi), i);
    }
  }

  lemma OnceOne(lo: int, hi: int)
    ensures ExactlyOnce([Range(lo, hi)], lo, hi) && ExactlyOnce([], lo, lo)
  {
    forall i ensures Cover([Range(lo, hi)], i) == In(Range(lo, hi), i) {
      CoverAppend([], Range(lo, hi), i);
      assert [] + [Range(lo, hi)] == [Range(lo, hi)];
    }
  }

  // The next probe: as long as the floor asks for, at least twice the last, at most the cap.
  function NextChunk(take: int, elapsed: int, cap: int): (chunk: int)
    requires take >= 1 && cap >= 1
    ensures 1 <= chunk <= cap
  {
    var d := if elapsed > 0 then elapsed else 1;
    var want := Max(take * ProbeFloorNs / d, take * 2);
    if want > cap then cap else want
  }

  /** The probe runs a prefix of the range, each index of it once, until the body has shown its cost. */
  method Probe(begin: int, end: int, clock: nat -> int) returns (calls: seq<Range>, probed: int, ns: int, len: int)
    requires begin < end
    ensures 1 <= probed <= Max(1, (end - begin) / 32) && begin + probed <= end && ExactlyOnce(calls, begin, begin + probed)
    ensures 1 <= len && ns >= 0 && (ns >= ProbeFloorNs || probed == Max(1, (end - begin) / 32))
  {
    var cap := Max(1, (end - begin) / 32);
    calls, probed, ns, len := [], 0, 0, 0;
    OnceOne(begin, begin);
    var reading: nat := 0;
    var previous := clock(0);
    var chunk := 1;
    while probed < cap
      invariant 0 <= probed <= cap <= end - begin && 1 <= chunk && len >= 0 && ns >= 0
      invariant reading > 0 ==> probed > 0
      invariant reading == 0 ==> probed == 0
      invariant ExactlyOnce(calls, begin, begin + probed)
      decreases cap - probed
    {
      var take := if chunk > cap - probed then cap - probed else chunk;
      var r := Range(begin + probed, begin + probed + take);
      OnceOne(r.lo, r.hi);
      OnceThen(calls, [r], begin, r.lo, r.hi);
      calls := calls + [r];
      reading := reading + 1;
      var now := clock(reading);
      var elapsed := now - previous;
      previous := now;
      probed := probed + take;
      chunk := NextChunk(take, elapsed, cap);
      if elapsed > 0 && take >= len { ns, len := elapsed, take; }
      if ns >= ProbeFloorNs { break; }
    }
    if len <= 0 { len := probed; }
  }

  /** Whatever the probe, the clock and the mode, what was run in place and what is planned make up the range. */
  method ChoosePlan(begin: int, end: int, grain: int, mode: Mode, env: Env, clock: nat -> int, width: int -> nat)
    returns (calls: seq<Range>, plan: Plan)
    requires env.leavesPerWorker >= 1
    ensures begin < end ==> ExactlyOnce(calls, begin, Rest(plan, end)) && begin <= Rest(plan, end) <= end
    ensures begin >= end ==> calls == [] && plan == Finished
    ensures !plan.Finished? ==> plan.begin < end && plan.grain >= Max(grain, MinGrain)
    ensures begin < end && (env.serial || !env.poolActive || env.workers == 0) ==> calls == [Range(begin, end)]
    ensures begin < end && !env.serial && env.poolActive && env.workers > 0 && !env.measuredWidth ==>
              if end - begin < env.minIters then calls == [Range(begin, end)] else !plan.Finished? && calls == []
    ensures (plan.ByPieces? ==> mode != Cursor && plan.width <= env.workers) && (plan.ByCursor? ==> mode != LazyPCore)
    ensures !plan.Finished? && !env.measuredWidth && mode == Auto ==> plan.ByCursor?
  {
    if end - begin <= 0 { return [], Finished; }
    OnceOne(begin, end);
    OnceOne(begin, begin);
    if env.serial || !env.poolActive || env.workers == 0 { return [Range(begin, end)], Finished; }
    var first, cost, fan := begin, 0, env.workers;
    calls := [];
    if env.measuredWidth && env.rememberedNs > 0 {
      var k := Fan(width(env.rememberedNs * (end - begin) / Mega), env.workers);
      if k < 2 { return [Range(begin, end)], Finished; }
      fan, cost := k, env.rememberedNs;
    } else if env.measuredWidth {
      var probed, ns, len;
      calls, probed, ns, len := Probe(begin, end, clock);
      first := begin + probed;
      if first >= end { return calls, Finished; }
      OnceOne(first, end);
      OnceThen(calls, [Range(first, end)], begin, first, end);
      if ns < ProbeFloorNs { return calls + [Range(first, end)], Finished; }
      var k := Fan(width(ns * (end - begin) / len), env.workers);
      if k < 2 { return calls + [Range(first, end)], Finished; }
      fan, cost := k, ns * Mega / len;
    } else if end - begin < env.minIters {
      return [Range(begin, end)], Finished;
    }
    var g := PieceGrain(end - first, fan, env.leavesPerWorker, Max(1, grain));
    plan := if UsePieces(mode, cost, g) then ByPieces(first, g, fan) else ByCursor(first, g);
  }

  function Fan(k: nat, workers: nat): nat {
    if k > workers then workers else k
  }

  // At most `leavesPerWorker` pieces a worker, and no piece below the minimum grain.
  function PieceGrain(n: int, fan: nat, leavesPerWorker: nat, grain: int): (g: int)
    requires n > 0 && fan >= 1 && leavesPerWorker >= 1
    ensures g >= grain && g >= MinGrain
    ensures g * (fan * leavesPerWorker) >= n && (g > Max(grain, MinGrain) ==> (g - 1) * (fan * leavesPerWorker) < n)
  {
    var maxLeaves := fan * leavesPerWorker;
    assert maxLeaves >= 1;
    var floorGrain := (n + maxLeaves - 1) / maxLeaves;
    FloorGrainCovers(n, maxLeaves, Max(Max(grain, floorGrain), MinGrain));
    RoundUpIsLeast(n, maxLeaves);
    Max(Max(grain, floorGrain), MinGrain)
  }

  // The quotient rounded up is the least that covers.
  lemma RoundUpIsLeast(n: nat, d: nat)
    requires d >= 1 && n >= 1
    ensures var q := (n + d - 1) / d; 1 <= q && (q - 1) * d < n <= q * d
  {
    var q := (n + d - 1) / d;
    DivBounds(n + d - 1, d);
    assert (q - 1) * d == q * d - d;
  }

  lemma FloorGrainCovers(n: nat, leaves: nat, g: nat)
    requires leaves >= 1 && g >= (n + leaves - 1) / leaves
    ensures g * leaves >= n
  {
    var f := (n + leaves - 1) / leaves;
    assert f * leaves + (n + leaves - 1) % leaves == n + leaves - 1;
    assert g * leaves >= f * leaves;
  }

  predicate UsePieces(mode: Mode, cost: int, grain: int) {
    match mode
    case Auto => cost > 0 && 0 <= cost * grain / Mega < LazyPieceNs
    case Cursor => false
    case LazyPCore => true
  }

  // RunCursorRange: about four blocks a worker, of 1 to 128 indices, and no more lanes than slices.
  function CursorGrain(n: int, lanesMax: nat, grain: int): (g: int)
    requires n > 0 && lanesMax >= 1
    ensures g >= grain && g >= 1 && g <= Max(grain, 128)
    ensures g > Max(grain, 1) ==> (g - 1) * (lanesMax * 4) < n
  {
    var blocks := lanesMax * 4;
    RoundUpIsLeast(n, blocks);
    BlockFits(n, blocks, if (n + blocks - 1) / blocks > 128 then 128 else (n + blocks - 1) / blocks);
    var balanced := (n + blocks - 1) / blocks;
    Max(grain, if balanced < 1 then 1 else if balanced > 128 then 128 else balanced)
  }

  lemma BlockFits(n: nat, blocks: nat, g: nat)
    requires n > 0 && blocks >= 1 && 1 <= g <= (n + blocks - 1) / blocks
    ensures (g - 1) * blocks < n
  {
    RoundUpIsLeast(n, blocks);
    assert (g - 1) * blocks <= ((n + blocks - 1) / blocks - 1) * blocks;
  }

  function CursorLanes(n: int, lanesMax: nat, grain: int): (lanes: nat)
    requires n > 0 && grain >= 1
    ensures lanesMax >= 1 ==> 1 <= lanes <= lanesMax
    ensures lanesMax >= 1 ==> (lanes - 1) * grain < n && (lanes == lanesMax || lanes * grain >= n)
  {
    var slices := (n + grain - 1) / grain;
    RoundUpIsLeast(n, grain);
    assert lanesMax >= 1 ==> (if lanesMax < slices then lanesMax - 1 else slices - 1) * grain < n by {
      if lanesMax >= 1 { BlockFits(n, grain, if lanesMax < slices then lanesMax else slices); }
    }
    var most := Max(1, slices);
    if lanesMax < most then lanesMax else most
  }

  // RunLazyRange: one part a chosen worker and one for the caller, none shorter than a grain.
  function LazyParts(n: int, others: nat, grain: int): (parts: nat)
    requires n > 0 && grain >= 1
    ensures 1 <= parts <= 1 + others
    ensures (parts > 1 ==> parts * grain <= n) && (parts == 1 + others || (parts + 1) * grain > n)
  {
    DivAtLeast(n, grain, 1 + others);
    DivAtLeast(n, grain, n / grain);
    DivAtLeast(n, grain, n / grain + 1);
    DivAtLeast(n, grain, 2);
    var most := n / grain;
    if 1 + others > most then (if most > 1 then most else 1) else 1 + others
  }

  // What a run of either machine did, once it returned.
  ghost predicate CursorDid(begin: int, end: int, grain: int, lanes: nat, events: seq<CursorRange.Event>, calls: seq<Range>)
    requires begin < end && grain >= 1
  {
    var s := CursorRange.Run(CursorRange.Init(begin, end, grain, lanes), events);
    s.returned && s.calls == calls
  }

  ghost predicate PiecesDid(begin: int, end: int, grain: int, parts: nat, events: seq<LazyRange.Event>, calls: seq<Range>)
    requires begin < end && grain >= 1 && parts >= 1
  {
    var s := LazyRange.Run(LazyRange.Init(begin, end, grain, parts), events);
    s.returned && s.calls == calls
  }

  ghost predicate SomeCursorRun(begin: int, end: int, grain: int, lanes: nat, calls: seq<Range>)
    requires begin < end && grain >= 1
  {
    exists events :: CursorDid(begin, end, grain, lanes, events, calls)
  }

  ghost predicate SomePiecesRun(begin: int, end: int, grain: int, parts: nat, calls: seq<Range>)
    requires begin < end && grain >= 1 && parts >= 1
  {
    exists events :: PiecesDid(begin, end, grain, parts, events, calls)
  }

  ghost predicate CarriedOut(plan: Plan, end: int, hot: nat, workers: nat, others: nat, calls: seq<Range>)
    requires hot < workers
  {
    match plan
    case Finished => calls == []
    case ByCursor(begin, grain) =>
      && begin < end
      && var g := CursorGrain(end - begin, workers - hot, grain);
         SomeCursorRun(begin, end, g, CursorLanes(end - begin, workers - hot, g), calls)
    case ByPieces(begin, grain, _) =>
      && begin < end && grain >= 1
      && SomePiecesRun(begin, end, grain, LazyParts(end - begin, others, grain), calls)
  }

  /**
    ParallelFor: what was run in place together with what the carried-out plan ran is every index
    of the range exactly once, for every interleaving, allocation failure and split.
   */
  lemma EveryIndexOnce(begin: int, end: int, calls: seq<Range>, plan: Plan,
                       hot: nat, workers: nat, others: nat, later: seq<Range>)
    requires begin < end && hot < workers && CarriedOut(plan, end, hot, workers, others, later)
    requires ExactlyOnce(calls, begin, Rest(plan, end)) && begin <= Rest(plan, end) <= end
    ensures ExactlyOnce(calls + later, begin, end)
  {
    match plan
    case Finished =>
      assert calls + later == calls;
    case ByCursor(b, g0) =>
      var g := CursorGrain(end - b, workers - hot, g0);
      var lanes := CursorLanes(end - b, workers - hot, g);
      var events :| CursorDid(b, end, g, lanes, events, later);
      CursorRange.CursorExactlyOnce(b, end, g, lanes, events);
      OnceThen(calls, later, begin, b, end);
    case ByPieces(b, g, _) =>
      var parts := LazyParts(end - b, others, g);
      var events :| PiecesDid(b, end, g, parts, events, later);
      LazyRange.LazyExactlyOnce(b, end, g, parts, events);
      OnceThen(calls, later, begin, b, end);
  }
}
