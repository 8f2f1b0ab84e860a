/**
  TimerQueue::Impl (src/Timer.cpp:160-533, 603-669): the timing wheel, its entry table and its
  handles.  Every method runs under the queue's mutex.  The clock is a parameter.
 */
module TimerQueue {
  import opened Division
  import opened WheelTicks
  import opened TimerLists
  import opened TimerBits
  import opened TimerLedger

  // An entry that keeps everything but its place in the wheel.
  predicate SameTimer(a: Entry, b: Entry) {
    a.deadline == b.deadline && a.record == b.record && a.generation == b.generation && a.nextFree == b.nextFree
  }

  predicate EntryTimely(now: nat, e: Entry) {
    e.level >= 0 && Timely(now, e.deadline, e.level, e.slot)
  }

  predicate AllTimely(now: nat, entries: seq<Entry>) {
    forall i | 0 <= i < |entries| && entries[i].level != -1 :: EntryTimely(now, entries[i])
  }

  // Placed by Place at this tick.
  predicate PlacedAt(now: nat, e: Entry) {
    (e.level, e.slot) == Placement(now, e.deadline)
  }

  // What a cascade of cell c makes of an entry: placed again, unless it is elsewhere or still waiting.
  predicate Recast(now: nat, was: Entry, e: Entry, c: nat, waiting: bool) {
    if InCell(was, c) && !waiting then SameTimer(e, was) && PlacedAt(now, e) else Kin(e, was)
  }

  predicate AllRecast(now: nat, before: seq<Entry>, entries: seq<Entry>, c: nat, rest: seq<nat>) {
    && |entries| == |before|
    && forall j | 0 <= j < |entries| :: Recast(now, before[j], entries[j], c, j in rest)
  }

  lemma RecastFirst(now: nat, before: seq<Entry>, entries: seq<Entry>, entries': seq<Entry>, c: nat, rest: seq<nat>)
    requires AllRecast(now, before, entries, c, rest) && |entries'| == |entries| && rest != [] && rest[0] !in rest[1..]
    requires forall j | 0 <= j < |entries| && j != rest[0] :: Kin(entries'[j], entries[j])
    requires rest[0] < |entries| && InCell(before[rest[0]], c)
    requires SameTimer(entries'[rest[0]], entries[rest[0]]) && PlacedAt(now, entries'[rest[0]])
    ensures AllRecast(now, before, entries', c, rest[1..])
  {
    forall j | 0 <= j < |entries| ensures Recast(now, before[j], entries'[j], c, j in rest[1..]) {
      assert Recast(now, before[j], entries[j], c, j in rest);
      assert j in rest ==> j == rest[0] || j in rest[1..];
    }
  }

  lemma PlacedIsTimely(now: nat, e: Entry)
    requires PlacedAt(now, e)
    ensures EntryTimely(now, e)
  {
    PlacementTimely(now, e.deadline);
  }

  // ---------- the wheel's lists as values ----------

  // The lists are in order; `rest` is what a cascade has still to place.
  predicate WheelOk(entries: seq<Entry>, heads: seq<int>, occ: seq<Word>, cells: seq<seq<nat>>, rest: seq<nat>) {
    && ListsOk(entries, heads, cells) && Complete(entries, cells, rest) && RestOk(entries, rest)
    && (forall c, i | 0 <= c < CellCount && i in rest :: i !in cells[c])
    && OccOk(occ, heads)
  }

  lemma UnlinkedIsNowhere(entries: seq<Entry>, heads: seq<int>, cells: seq<seq<nat>>, i: nat)
    requires ListsOk(entries, heads, cells) && i < |entries| && entries[i].level == -1
    ensures forall c | 0 <= c < CellCount :: i !in cells[c]
  {
    forall c | 0 <= c < CellCount ensures i !in cells[c] {
      assert ListOk(entries, heads[c], cells[c], c);
      forall k | 0 <= k < |cells[c]| ensures cells[c][k] != i { assert NodeOk(entries, cells[c], c, k); }
    }
  }

  lemma LinkOk(entries: seq<Entry>, heads: seq<int>, occ: seq<Word>, cells: seq<seq<nat>>, rest: seq<nat>,
               i: nat, level: nat, slot: nat)
    requires WheelOk(entries, heads, occ, cells, rest) && i < |entries| && entries[i].level == -1 && i !in rest
    requires level < Levels && slot < Slots
    ensures var c := Cell(level, slot);
            WheelOk(LinkEntries(entries, i, level, slot, heads[c]), heads[c := i], Mark(occ, c, true),
                    cells[c := [i] + cells[c]], rest)
    ensures heads[Cell(level, slot)] < |entries| && heads[Cell(level, slot)] != i
  {
    var c := Cell(level, slot);
    assert ListOk(entries, heads[c], cells[c], c);
    assert heads[c] >= 0 ==> NodeOk(entries, cells[c], c, 0) && heads[c] in cells[c];
    UnlinkedIsNowhere(entries, heads, cells, i);
    LinkKin(entries, heads, cells, i, level, slot);
    MarkKeeps(occ, heads, c, i);
    var entries', heads', cells' :=
      LinkEntries(entries, i, level, slot, heads[c]), heads[c := i], cells[c := [i] + cells[c]];
    forall d | 0 <= d < CellCount ensures ListOk(entries', heads'[d], cells'[d], d) {
      assert ListOk(entries, heads[d], cells[d], d);
      if d == c { LinkList(entries, heads[c], cells[c], i, level, slot); }
      else { LinkOther(entries, heads[c], cells[c], i, level, slot, heads[d], cells[d], d); }
    }
    forall j | 0 <= j < |entries'| && entries'[j].level != -1 && j !in rest ensures Listed(entries'[j], j, cells') {
      if j != i { assert Kin(entries'[j], entries[j]) && Listed(entries[j], j, cells); }
    }
    forall k | 0 <= k < |rest| ensures RestNode(entries', rest, k) { assert RestNode(entries, rest, k) && rest[k] in rest; }
  }

  lemma UnlinkOk(entries: seq<Entry>, heads: seq<int>, occ: seq<Word>, cells: seq<seq<nat>>, c: nat, k: nat)
    requires WheelOk(entries, heads, occ, cells, []) && c < CellCount && k < |cells[c]|
    ensures NodeOk(entries, cells[c], c, k)
    ensures var i := cells[c][k];
            var head := if entries[i].prev == Nil then entries[i].next else heads[c];
            WheelOk(UnlinkEntries(entries, i), heads[c := head], Mark(occ, c, head != Nil),
                    cells[c := Drop(cells[c], k)], [])
  {
    assert ListOk(entries, heads[c], cells[c], c);
    assert NodeOk(entries, cells[c], c, k);
    var i := cells[c][k];
    var head := if entries[i].prev == Nil then entries[i].next else heads[c];
    var entries', heads', cells' := UnlinkEntries(entries, i), heads[c := head], cells[c := Drop(cells[c], k)];
    MarkKeeps(occ, heads, c, head);
    UnlinkKin(entries, heads[c], cells[c], c, k);
    forall d | 0 <= d < CellCount ensures ListOk(entries', heads'[d], cells'[d], d) {
      assert ListOk(entries, heads[d], cells[d], d);
      if d == c { UnlinkList(entries, heads[c], cells[c], c, k); }
      else { UnlinkOther(entries, heads[c], cells[c], c, k, heads[d], cells[d], d); }
    }
    forall j | 0 <= j < |entries'| && entries'[j].level != -1 ensures Listed(entries'[j], j, cells') {
      assert Kin(entries'[j], entries[j]) && Listed(entries[j], j, cells);
      var xs := cells[Cell(entries[j].level, entries[j].slot)];
      var p :| 0 <= p < |xs| && xs[p] == j;
      if Cell(entries[j].level, entries[j].slot) == c {
        DropAt(xs, k, if p < k then p else p - 1);
      }
    }
  }

  // A cascade takes a whole list off its cell.
  lemma DetachOk(entries: seq<Entry>, heads: seq<int>, occ: seq<Word>, cells: seq<seq<nat>>, c: nat)
    requires WheelOk(entries, heads, occ, cells, []) && c < CellCount
    ensures WheelOk(entries, heads[c := Nil], Mark(occ, c, false), cells[c := []], cells[c])
    ensures forall i | i in cells[c] :: i < |entries| && InCell(entries[i], c)
    ensures forall i: nat | i < |entries| && InCell(entries[i], c) :: i in cells[c]
  {
    assert ListOk(entries, heads[c], cells[c], c);
    MarkKeeps(occ, heads, c, Nil);
    forall k | 0 <= k < |cells[c]|
      ensures RestNode(entries, cells[c], k) && InCell(entries[cells[c][k]], c)
    {
      assert NodeOk(entries, cells[c], c, k);
    }
    forall i: nat | i < |entries| && InCell(entries[i], c) ensures i in cells[c] {
      assert Listed(entries[i], i, cells);
    }
    forall d, i | 0 <= d < CellCount && d != c && i in cells[c] ensures i !in cells[d] {
      assert ListOk(entries, heads[d], cells[d], d);
      forall k | 0 <= k < |cells[d]| ensures cells[d][k] != i { assert NodeOk(entries, cells[d], d, k); }
    }
  }

  // Entry rest[0] is next; the cascade resets its links.
  lemma ResetOk(entries: seq<Entry>, heads: seq<int>, occ: seq<Word>, cells: seq<seq<nat>>, rest: seq<nat>, e: Entry)
    requires WheelOk(entries, heads, occ, cells, rest) && rest != [] && e.level == -1
    ensures rest[0] < |entries| && rest[0] !in rest[1..]
    ensures WheelOk(entries[rest[0] := e], heads, occ, cells, rest[1..])
  {
    assert RestNode(entries, rest, 0);
    var i := rest[0];
    assert i in rest;
    var entries' := entries[i := e];
    forall c | 0 <= c < CellCount ensures ListOk(entries', heads[c], cells[c], c) {
      assert ListOk(entries, heads[c], cells[c], c);
      forall k | 0 <= k < |cells[c]| ensures NodeOk(entries', cells[c], c, k) {
        assert NodeOk(entries, cells[c], c, k) && cells[c][k] in cells[c];
      }
    }
    forall j | 0 <= j < |entries'| && entries'[j].level != -1 && j !in rest[1..] ensures Listed(entries'[j], j, cells) {
      assert j !in rest;
    }
    forall k | 0 <= k < |rest| - 1 ensures RestNode(entries', rest[1..], k) { assert RestNode(entries, rest, k + 1); }
    forall c, j | 0 <= c < CellCount && j in rest[1..] ensures j !in cells[c] { assert j in rest; }
  }

  // ---------- the next event ----------

  // The tick at which the wheel next looks at the entry's slot.
  function EntryVisit(now: nat, e: Entry): nat
    requires 0 <= e.level < Levels
  {
    Visit(now, e.level, e.slot)
  }

  predicate OnLevels(e: Entry, below: nat) {
    0 <= e.level < below && e.slot < Slots
  }

  // `next` is the earliest visit among the entries on levels below `level`, or -1 if there is none.
  predicate Earliest(now: nat, entries: seq<Entry>, level: nat, next: int)
    requires level <= Levels
  {
    && (forall i | 0 <= i < |entries| && OnLevels(entries[i], level) :: 0 <= next <= EntryVisit(now, entries[i]))
    && next >= -1
    && (next >= 0 ==>
          exists i :: 0 <= i < |entries| && OnLevels(entries[i], level) && EntryVisit(now, entries[i]) == next)
  }

  lemma BitIffEntry(entries: seq<Entry>, heads: seq<int>, occ: seq<Word>, cells: seq<seq<nat>>, level: nat, slot: nat)
    requires WheelOk(entries, heads, occ, cells, []) && level < Levels && slot < Slots
    ensures Bit(occ, Cell(level, slot)) <==>
            exists i :: 0 <= i < |entries| && entries[i].level == level && entries[i].slot == slot
  {
    var c := Cell(level, slot);
    assert ListOk(entries, heads[c], cells[c], c);
    if Bit(occ, c) { assert NodeOk(entries, cells[c], c, 0); }
    if i :| 0 <= i < |entries| && entries[i].level == level && entries[i].slot == slot {
      assert Listed(entries[i], i, cells);
    }
  }

  lemma SameAhead(first: nat, slot: nat)
    ensures Ahead(first % Slots, slot) == (slot - first) % Slots
  {
  }

  // The slot at which the search for the next event starts.
  function SearchFrom(now: nat, level: nat): (from: nat)
    requires level < Levels
    ensures from == FirstRound(now, level) % Slots
  {
    var cur := now / Granularity(level) % Slots;
    NextSlot(now / Granularity(level));
    if level == 0 then cur else (cur + 1) % Slots
  }

  lemma NextSlot(r: nat)
    ensures (r % Slots + 1) % Slots == (r + 1) % Slots
  {
  }

  function When(now: nat, level: nat, from: nat, slot: nat): nat
    requires level < Levels
  {
    var g := Granularity(level);
    var base := if level == 0 then now else (now / g + 1) * g;
    base + (slot - from) % Slots * g
  }

  lemma WhenIsVisit(now: nat, level: nat, slot: nat)
    requires level < Levels
    ensures When(now, level, SearchFrom(now, level), slot) == Visit(now, level, slot)
  {
    SameAhead(FirstRound(now, level), slot);
  }

  lemma NearerIsEarlier(now: nat, level: nat, slot: nat, other: nat)
    requires level < Levels && Ahead(SearchFrom(now, level), slot) <= Ahead(SearchFrom(now, level), other)
    ensures Visit(now, level, slot) <= Visit(now, level, other)
  {
    SameAhead(FirstRound(now, level), slot);
    SameAhead(FirstRound(now, level), other);
    assert Round(now, level, slot) <= Round(now, level, other);
  }

  lemma EarliestClear(entries: seq<Entry>, heads: seq<int>, occ: seq<Word>, cells: seq<seq<nat>>,
                      now: nat, level: nat, best: int)
    requires WheelOk(entries, heads, occ, cells, []) && level < Levels && LevelClear(occ, level)
    requires Earliest(now, entries, level, best)
    ensures Earliest(now, entries, level + 1, best)
  {
    forall i | 0 <= i < |entries| && OnLevels(entries[i], level + 1) ensures OnLevels(entries[i], level) {
      if entries[i].level == level { BitIffEntry(entries, heads, occ, cells, level, entries[i].slot); }
    }
    if best >= 0 {
      var i :| 0 <= i < |entries| && OnLevels(entries[i], level) && EntryVisit(now, entries[i]) == best;
      assert OnLevels(entries[i], level + 1);
    }
  }

  lemma EarliestExtends(entries: seq<Entry>, heads: seq<int>, occ: seq<Word>, cells: seq<seq<nat>>,
                        now: nat, level: nat, best: int, slot: nat)
    requires WheelOk(entries, heads, occ, cells, []) && level < Levels
    requires Nearest(occ, level, SearchFrom(now, level), slot)
    requires Earliest(now, entries, level, best)
    ensures var when := Visit(now, level, slot);
            Earliest(now, entries, level + 1, if best < 0 || when < best then when else best)
  {
    var when := Visit(now, level, slot);
    var next := if best < 0 || when < best then when else best;
    forall i | 0 <= i < |entries| && OnLevels(entries[i], level + 1) ensures next <= EntryVisit(now, entries[i]) {
      if entries[i].level == level {
        var s := entries[i].slot;
        BitIffEntry(entries, heads, occ, cells, level, s);
        NearerIsEarlier(now, level, slot, s);
      } else {
        assert OnLevels(entries[i], level);
      }
    }
    if next == when {
      BitIffEntry(entries, heads, occ, cells, level, slot);
      var i :| 0 <= i < |entries| && entries[i].level == level && entries[i].slot == slot;
      assert OnLevels(entries[i], level + 1) && EntryVisit(now, entries[i]) == when;
    } else {
      var i :| 0 <= i < |entries| && OnLevels(entries[i], level) && EntryVisit(now, entries[i]) == best;
      assert OnLevels(entries[i], level + 1);
    }
  }

  lemma EarliestAhead(now: nat, entries: seq<Entry>, next: int)
    requires Earliest(now, entries, Levels, next)
    ensures next >= 0 ==> next >= now
  {
    if next >= 0 {
      var i :| 0 <= i < |entries| && OnLevels(entries[i], Levels) && EntryVisit(now, entries[i]) == next;
      if entries[i].level > 0 { VisitAhead(now, entries[i].level, entries[i].slot); }
      else { assert Visit(now, 0, entries[i].slot) == Round(now, 0, entries[i].slot); }
    }
  }

  // ---------- advancing ----------

  predicate IsPassed(now: nat, target: nat, e: Entry) {
    e.level >= 1 && Passed(now, target, e.level, e.slot)
  }

  // What an advance makes of an entry: placed again if its round was passed, otherwise left where it is.
  predicate Advanced(now: nat, target: nat, was: Entry, e: Entry) {
    if IsPassed(now, target, was) then SameTimer(e, was) && EntryTimely(target, e) else Kin(e, was)
  }

  // The same in the middle of an advance: the levels below `level` and the slots in `seen` are done.
  predicate Sweeping(now: nat, target: nat, was: Entry, e: Entry, level: nat, seen: set<nat>) {
    || Advanced(now, target, was, e)
    || (Kin(e, was) && IsPassed(now, target, was) && !(was.level < level || (was.level == level && was.slot in seen)))
  }

  predicate AllSweeping(now: nat, target: nat, before: seq<Entry>, entries: seq<Entry>, level: nat, seen: set<nat>) {
    && |entries| == |before|
    && forall j | 0 <= j < |entries| :: Sweeping(now, target, before[j], entries[j], level, seen)
  }

  predicate AllAdvanced(now: nat, target: nat, before: seq<Entry>, entries: seq<Entry>) {
    && |entries| == |before|
    && forall j | 0 <= j < |entries| :: Advanced(now, target, before[j], entries[j])
  }

  lemma SweepCell(now: nat, target: nat, before: seq<Entry>, mid: seq<Entry>, entries: seq<Entry>,
                  level: nat, slot: nat, seen: set<nat>)
    requires AllSweeping(now, target, before, mid, level, seen) && Passed(now, target, level, slot)
    requires AllRecast(target, mid, entries, Cell(level, slot), [])
    ensures AllSweeping(now, target, before, entries, level, seen + {slot})
  {
    forall j | 0 <= j < |entries| ensures Sweeping(now, target, before[j], entries[j], level, seen + {slot}) {
      assert Sweeping(now, target, before[j], mid[j], level, seen);
      assert Recast(target, mid[j], entries[j], Cell(level, slot), j in []);
      if InCell(mid[j], Cell(level, slot)) { PlacedIsTimely(target, entries[j]); }
    }
  }

  lemma SweepEmpty(now: nat, target: nat, before: seq<Entry>, entries: seq<Entry>, heads: seq<int>,
                   cells: seq<seq<nat>>, level: nat, slot: nat, seen: set<nat>)
    requires AllSweeping(now, target, before, entries, level, seen) && level < Levels && slot < Slots
    requires ListsOk(entries, heads, cells) && Complete(entries, cells, []) && heads[Cell(level, slot)] == Nil
    ensures AllSweeping(now, target, before, entries, level, seen + {slot})
  {
    var c := Cell(level, slot);
    assert ListOk(entries, heads[c], cells[c], c);
    forall j | 0 <= j < |entries| ensures Sweeping(now, target, before[j], entries[j], level, seen + {slot}) {
      assert Sweeping(now, target, before[j], entries[j], level, seen);
      assert entries[j].level != -1 ==> Listed(entries[j], j, cells);
    }
  }

  // A level is done when every slot whose round was passed has been seen.
  lemma SweepLevelDone(now: nat, target: nat, before: seq<Entry>, entries: seq<Entry>, level: nat, seen: set<nat>)
    requires AllSweeping(now, target, before, entries, level, seen)
    requires forall slot: nat | Passed(now, target, level, slot) :: slot in seen
    ensures AllSweeping(now, target, before, entries, level + 1, {})
  {
    forall j | 0 <= j < |entries| ensures Sweeping(now, target, before[j], entries[j], level + 1, {}) {
      assert Sweeping(now, target, before[j], entries[j], level, seen);
    }
  }

  lemma SweepDone(now: nat, target: nat, before: seq<Entry>, entries: seq<Entry>, level: nat)
    requires AllSweeping(now, target, before, entries, level, {}) && now <= target && 1 <= level <= Levels
    requires level < Levels ==> now / Granularity(level) == target / Granularity(level)
    ensures AllAdvanced(now, target, before, entries)
  {
    forall j | 0 <= j < |entries| ensures Advanced(now, target, before[j], entries[j]) {
      assert Sweeping(now, target, before[j], entries[j], level, {});
      var l := before[j].level;
      if level <= l < Levels { HigherLevelsUnpassed(now, target, level, l); }
    }
  }

  // Fields of an entry that is on no list may change freely, and the table may grow.
  lemma EditOk(entries: seq<Entry>, heads: seq<int>, occ: seq<Word>, cells: seq<seq<nat>>, i: nat, e: Entry)
    requires WheelOk(entries, heads, occ, cells, []) && i < |entries| && entries[i].level == -1 && e.level == -1
    ensures WheelOk(entries[i := e], heads, occ, cells, [])
  {
    UnlinkedIsNowhere(entries, heads, cells, i);
    var entries' := entries[i := e];
    forall c | 0 <= c < CellCount ensures ListOk(entries', heads[c], cells[c], c) {
      assert ListOk(entries, heads[c], cells[c], c);
      forall k | 0 <= k < |cells[c]| ensures NodeOk(entries', cells[c], c, k) {
        assert NodeOk(entries, cells[c], c, k) && cells[c][k] in cells[c];
      }
    }
  }

  lemma GrowOk(entries: seq<Entry>, heads: seq<int>, occ: seq<Word>, cells: seq<seq<nat>>, e: Entry)
    requires WheelOk(entries, heads, occ, cells, []) && e.level == -1
    ensures WheelOk(entries + [e], heads, occ, cells, [])
  {
    var entries' := entries + [e];
    forall c | 0 <= c < CellCount ensures ListOk(entries', heads[c], cells[c], c) {
      assert ListOk(entries, heads[c], cells[c], c);
      forall k | 0 <= k < |cells[c]| ensures NodeOk(entries', cells[c], c, k) { assert NodeOk(entries, cells[c], c, k); }
    }
  }

  predicate StandsAt(entries: seq<Entry>, cells: seq<seq<nat>>, i: nat, k: nat)
    requires |cells| == CellCount && i < |entries|
  {
    && 0 <= entries[i].level < Levels && entries[i].slot < Slots
    && k < |cells[Cell(entries[i].level, entries[i].slot)]| && cells[Cell(entries[i].level, entries[i].slot)][k] == i
  }

  function Removed(entries: seq<Entry>, cells: seq<seq<nat>>, i: nat, k: nat): seq<seq<nat>>
    requires |cells| == CellCount && i < |entries| && StandsAt(entries, cells, i, k)
  {
    var c := Cell(entries[i].level, entries[i].slot);
    cells[c := Drop(cells[c], k)]
  }

  // ---------- what an advance promises ----------

  // What an advance that may have nothing to do makes of an entry.
  predicate Carried(now: nat, target: nat, was: Entry, e: Entry) {
    if now < target then Advanced(now, target, was, e) else Kin(e, was)
  }

  // The same for all entries of the table but one.
  predicate AllCarried(now: nat, target: nat, before: seq<Entry>, entries: seq<Entry>, but: int) {
    && |entries| >= |before|
    && forall j | 0 <= j < |before| && j != but :: Carried(now, target, before[j], entries[j])
  }

  lemma CarriedThenKin(now: nat, target: nat, before: seq<Entry>, mid: seq<Entry>, entries: seq<Entry>, i: nat)
    requires AllCarried(now, target, before, mid, Nil) && |mid| == |before| <= |entries|
    requires forall j | 0 <= j < |mid| && j != i :: Kin(entries[j], mid[j])
    ensures AllCarried(now, target, before, entries, i)
  {
    forall j | 0 <= j < |before| && j != i ensures Carried(now, target, before[j], entries[j]) {
      assert Carried(now, target, before[j], mid[j]);
    }
  }

  lemma AdvancedAlike(now: nat, target: nat, before: seq<Entry>, entries: seq<Entry>)
    requires AllAdvanced(now, target, before, entries)
    ensures AllAlike(entries, before)
  {
    forall j | 0 <= j < |entries| ensures Alike(entries[j], before[j]) {
      assert Advanced(now, target, before[j], entries[j]);
    }
  }

  // An entry of level 0 that an advance leaves where it is.
  predicate BaseKept(target: nat, e: Entry) {
    e.level == 0 ==> target <= e.deadline || e.slot == target % Slots
  }

  /** An advance to any later tick keeps the strong invariant exactly when it overruns no entry of level 0. */
  lemma AdvanceTimelyIff(now: nat, target: nat, before: seq<Entry>, entries: seq<Entry>)
    requires AllTimely(now, before) && now < target && AllAdvanced(now, target, before, entries)
    ensures AllTimely(target, entries) <==> forall j | 0 <= j < |before| && before[j].level != -1 :: BaseKept(target, before[j])
  {
    forall j | 0 <= j < |before| && before[j].level != -1
      ensures EntryTimely(target, entries[j]) <==> BaseKept(target, before[j])
    {
      assert Advanced(now, target, before[j], entries[j]);
      var Entry(d, _, _, _, _, _, level, slot) := before[j];
      if level == 0 { BaseTimelyIff(now, target, d, slot); }
      else if !IsPassed(now, target, before[j]) { AdvanceTimely(now, target, d, level, slot); }
    }
    if AllTimely(target, entries) {
      forall j | 0 <= j < |before| && before[j].level != -1 ensures BaseKept(target, before[j]) {
        assert Advanced(now, target, before[j], entries[j]);
        assert entries[j].level != -1;
      }
    } else {
      var j :| 0 <= j < |entries| && entries[j].level != -1 && !EntryTimely(target, entries[j]);
      assert Advanced(now, target, before[j], entries[j]);
      assert before[j].level != -1;
    }
  }

  // The entries of level 0 that an advance to the target would leave behind.
  function Overrun(now: nat, target: nat, entries: seq<Entry>): set<nat> {
    set j | 0 <= j < |entries| && now < target && entries[j].level == 0 && !BaseKept(target, entries[j])
  }

  lemma OverrunIff(now: nat, target: nat, entries: seq<Entry>)
    requires now < target
    ensures Overrun(now, target, entries) == {} <==>
            forall j | 0 <= j < |entries| && entries[j].level != -1 :: BaseKept(target, entries[j])
  {
    if Overrun(now, target, entries) == {} {
      forall j | 0 <= j < |entries| && entries[j].level != -1 ensures BaseKept(target, entries[j]) {
        assert j !in Overrun(now, target, entries);
      }
    }
  }

  lemma AdvanceOverrun(now: nat, target: nat, before: seq<Entry>, entries: seq<Entry>)
    requires now < target && AllAdvanced(now, target, before, entries)
    ensures AllAlike(entries, before)
    ensures AllTimely(now, before) ==> (AllTimely(target, entries) <==> Overrun(now, target, before) == {})
  {
    AdvancedAlike(now, target, before, entries);
    OverrunIff(now, target, before);
    if AllTimely(now, before) { AdvanceTimelyIff(now, target, before, entries); }
  }

  /** An advance no later than the next event keeps every entry and the strong invariant. */
  lemma AdvanceKeepsTimely(now: nat, target: nat, next: int, before: seq<Entry>, entries: seq<Entry>)
    requires AllTimely(now, before) && now < target && AllAdvanced(now, target, before, entries)
    requires Earliest(now, before, Levels, next) && (next >= 0 ==> target <= next)
    ensures AllTimely(target, entries) && AllAlike(entries, before)
  {
    AdvancedAlike(now, target, before, entries);
    forall j | 0 <= j < |before| && before[j].level != -1 ensures BaseKept(target, before[j]) {
      assert EntryTimely(now, before[j]);
      assert OnLevels(before[j], Levels);
    }
    AdvanceTimelyIff(now, target, before, entries);
  }

  /** In a timely wheel the current slot of level 0 holds exactly the entries that are due. */
  lemma SlotHoldsExactlyTheDue(now: nat, entries: seq<Entry>, heads: seq<int>, occ: seq<Word>, cells: seq<seq<nat>>)
    requires WheelOk(entries, heads, occ, cells, []) && AllTimely(now, entries)
    ensures SlotIsDue(now, entries, cells[CurrentCell(now)])
  {
    var c := CurrentCell(now);
    DetachOk(entries, heads, occ, cells, c);
    forall i: nat | i < |entries| && entries[i].level != -1
      ensures i in cells[c] <==> entries[i].deadline <= now
    {
      assert EntryTimely(now, entries[i]);
      DueIffInSlot(now, entries[i].deadline, entries[i].level, entries[i].slot);
      assert InCell(entries[i], c) <==> entries[i].level == 0 && entries[i].slot == now % Slots;
    }
  }

  lemma InstallAcquired(l: Ledger, placed: seq<Entry>, l': Ledger, i: nat)
    requires i < |placed| == |l'.entries| && |l.entries| <= |placed|
    requires forall j | 0 <= j < |placed| && j != i :: Kin(l'.entries[j], placed[j])
    requires forall j | 0 <= j < |l.entries| && j != i :: placed[j] == l.entries[j]
    requires SameTimer(l'.entries[i], placed[i])
    requires if l.free != []
             then i == l.free[0] && |placed| == |l.entries| && l'.free == l.free[1..] && i < |l.entries|
                  && l'.freeHead == l.entries[i].nextFree && placed[i].generation == l.entries[i].generation + 1
             else i == |l.entries| && |placed| == |l.entries| + 1 && l'.free == [] && l'.freeHead == l.freeHead
                  && placed[i].generation == 1
    ensures Acquired(l, l', i)
  {
    forall j | 0 <= j < |l.entries| && j != i ensures Alike(l'.entries[j], l.entries[j]) {
      assert Kin(l'.entries[j], placed[j]);
    }
  }

  // Entry i was free, or is new, and is linked where its deadline wants it, for record r.
  predicate NewlyArmed(before: seq<Entry>, entries: seq<Entry>, now: nat, i: int, r: nat, deadline: nat) {
    && 0 <= i < |entries| && IsArmed(entries[i]) && PlacedAt(now, entries[i])
    && entries[i].record == r && entries[i].deadline == deadline
    && (i < |before| ==> !IsArmed(before[i]))
  }

  lemma NotArmedBefore(l: Ledger, l': Ledger, k: Clock, i: nat)
    requires LedgerOk(l, k) && Acquired(l, l', i)
    ensures i < |l.entries| ==> !IsArmed(l.entries[i])
  {
    if l.free != [] { assert FreeNode(l.entries, l.free, 0); }
  }

  lemma InstallTimely(now: nat, l: Ledger, l': Ledger, i: nat)
    requires Acquired(l, l', i) && AllTimely(now, l.entries) && PlacedAt(now, l'.entries[i])
    requires forall j | 0 <= j < |l.entries| && j != i :: Kin(l'.entries[j], l.entries[j])
    ensures AllTimely(now, l'.entries)
  {
    PlacedIsTimely(now, l'.entries[i]);
    forall j | 0 <= j < |l'.entries| && l'.entries[j].level != -1 ensures EntryTimely(now, l'.entries[j]) {
      if j != i { assert Kin(l'.entries[j], l.entries[j]) && EntryTimely(now, l.entries[j]); }
    }
  }

  // ---------- firing ----------

  // What a fire step at this tick makes of a due entry it reaches.
  predicate Dealt(tick: nat, was: Entry, e: Entry) {
    if was.record == Nil then !IsArmed(e) && e.generation == was.generation + 1
    else IsArmed(e) && e.generation == was.generation && e.record == was.record && tick < e.deadline && PlacedAt(tick, e)
  }

  predicate Handled(tick: nat, was: Entry, e: Entry, reached: bool) {
    if reached && was.deadline <= tick then Dealt(tick, was, e) else Kin(e, was)
  }

  predicate AllHandled(tick: nat, before: seq<Entry>, entries: seq<Entry>, reached: seq<nat>) {
    && |entries| == |before|
    && forall j | 0 <= j < |entries| :: Handled(tick, before[j], entries[j], j in reached)
  }

  lemma HandleNext(tick: nat, before: seq<Entry>, mid: seq<Entry>, entries: seq<Entry>, reached: seq<nat>, i: nat)
    requires AllHandled(tick, before, mid, reached) && |entries| == |mid| && i < |mid| && i !in reached
    requires forall j | 0 <= j < |mid| && j != i :: Kin(entries[j], mid[j])
    requires Handled(tick, before[i], entries[i], true)
    ensures AllHandled(tick, before, entries, reached + [i])
  {
    forall j | 0 <= j < |entries| ensures Handled(tick, before[j], entries[j], j in reached + [i]) {
      assert Handled(tick, before[j], mid[j], j in reached);
    }
  }

  /** A fire step leaves a timely wheel timely at its tick, and nothing due behind once it reached the whole slot. */
  lemma HandledTimely(tick: nat, before: seq<Entry>, entries: seq<Entry>, reached: seq<nat>)
    requires AllTimely(tick, before) && AllHandled(tick, before, entries, reached)
    ensures AllTimely(tick, entries)
    ensures (forall j | 0 <= j < |before| && IsArmed(before[j]) && before[j].deadline <= tick :: j in reached) ==>
              forall j | 0 <= j < |entries| && IsArmed(entries[j]) :: tick < entries[j].deadline
  {
    forall j | 0 <= j < |entries| && IsArmed(entries[j]) ensures EntryTimely(tick, entries[j]) {
      assert Handled(tick, before[j], entries[j], j in reached);
      if j in reached && before[j].deadline <= tick { PlacedIsTimely(tick, entries[j]); }
    }
    forall j | 0 <= j < |entries| && IsArmed(entries[j])
      ensures tick < entries[j].deadline || (before[j].deadline <= tick && j !in reached && IsArmed(before[j]))
    {
      assert Handled(tick, before[j], entries[j], j in reached);
    }
  }

  function CurrentCell(tick: nat): nat {
    Cell(0, tick % Slots)
  }

  // A fire step counts what it fires or launches; a periodic entry whose instance is in flight does not count.
  predicate Counts(tick: nat, e: Entry, records: seq<Record>) {
    e.deadline <= tick && (e.record == Nil || (0 <= e.record < |records| && !records[e.record].inFlight))
  }

  predicate LogGrows(before: seq<Settlement>, log: seq<Settlement>, now: nat) {
    && |before| <= |log| && log[..|before|] == before
    && forall k | |before| <= k < |log| :: log[k].outcome == Fired(now)
  }

  // The records change only for entries that were reached.
  predicate RecordsReached(before: seq<Record>, records: seq<Record>, reached: seq<nat>) {
    && |records| == |before|
    && forall r | 0 <= r < |records| && records[r] != before[r] ::
         before[r].entry in reached && records[r].entry == before[r].entry
  }

  // The record has an instance in flight and stands at the first grid point after a reading up to hi.
  predicate MovedOn(was: Record, r: Record, hi: nat) {
    && r.inFlight && r.interval == was.interval && r.first == was.first && r.entry == was.entry && was.due < r.due
    && (r.due == was.due + r.interval || r.due - r.interval <= hi)
  }

  predicate RecordsMoved(before: seq<Record>, records: seq<Record>, hi: nat) {
    |records| == |before| && forall r | 0 <= r < |records| && records[r] != before[r] :: MovedOn(before[r], records[r], hi)
  }

  lemma RecordsMovedOn(start: seq<Record>, mid: seq<Record>, now: seq<Record>, reached: seq<nat>, i: nat, hi: nat, reading: nat)
    requires RecordsMoved(start, mid, hi) && RecordsReached(start, mid, reached) && i !in reached
    requires RecordsMoved(mid, now, reading) && RecordsReached(mid, now, [i])
    ensures RecordsMoved(start, now, Max(hi, reading))
  {
    forall r | 0 <= r < |now| && now[r] != start[r] ensures MovedOn(start[r], now[r], Max(hi, reading)) {
      if now[r] != mid[r] { assert mid[r] == start[r]; }
    }
  }

  lemma OneRecordMoves(l: Ledger, k: Clock, i: nat, reading: nat, records: seq<Record>)
    requires LedgerOk(l, k) && i < |l.entries| && IsArmed(l.entries[i]) && l.entries[i].record != Nil
    requires var r := l.entries[i].record;
             && 0 <= r < |l.records| && l.records[r].interval > 0
             && records == l.records[r := NextPoint(l.records[r], reading)]
    ensures RecordsReached(l.records, records, [i]) && RecordsMoved(l.records, records, reading)
  {
    var r := l.entries[i].record;
    NextPointIsAhead(l.records[r], k, reading);
    assert l.records[r].entry == i;
  }

  lemma SlotEntries(entries: seq<Entry>, heads: seq<int>, cells: seq<seq<nat>>, c: nat)
    requires ListsOk(entries, heads, cells) && c < CellCount
    ensures Distinct(cells[c]) && SlotArmed(entries, cells[c])
  {
    assert ListOk(entries, heads[c], cells[c], c);
    forall k | 0 <= k < |cells[c]| ensures cells[c][k] < |entries| && IsArmed(entries[cells[c][k]]) {
      assert NodeOk(entries, cells[c], c, k);
    }
  }

  lemma NowTickMonotone(k: Clock, a: nat, b: nat)
    requires ClockOk(k) && k.epoch <= a <= b
    ensures NowTick(k, a) <= NowTick(k, b)
  {
    DivBounds(a - k.epoch, k.tick);
    DivAtLeast(b - k.epoch, k.tick, NowTick(k, a));
  }

  // The state of a fire step's walk: the first k entries of the slot have been reached.
  predicate Walked(tick: nat, clock: nat, start: Ledger, now: Ledger, orig: seq<nat>, k: nat, handled: nat)
    requires k <= |orig|
  {
    && LogGrows(start.log, now.log, clock)
    && AllHandled(tick, start.entries, now.entries, orig[..k])
    && RecordsReached(start.records, now.records, orig[..k])
    && (handled == 0 <==> NoneCounted(tick, start, orig[..k])) && handled <= k
  }

  predicate NoneCounted(tick: nat, start: Ledger, reached: seq<nat>) {
    forall p | 0 <= p < |reached| ::
      reached[p] < |start.entries| && !Counts(tick, start.entries[reached[p]], start.records)
  }

  lemma WalkStart(tick: nat, clock: nat, start: Ledger, orig: seq<nat>)
    ensures Walked(tick, clock, start, start, orig, 0, 0)
  {
    assert orig[..0] == [];
  }

  lemma LogGrowsOn(a: seq<Settlement>, b: seq<Settlement>, c: seq<Settlement>, now: nat)
    requires LogGrows(a, b, now) && LogGrows(b, c, now)
    ensures LogGrows(a, c, now)
  {
    assert c[..|a|] == c[..|b|][..|a|];
    forall k | |a| <= k < |c| ensures c[k].outcome == Fired(now) {
      if k < |b| { assert c[k] == c[..|b|][k]; }
    }
  }

  lemma WalkOn(tick: nat, clock: nat, k0: Clock, start: Ledger, mid: Ledger, now: Ledger, orig: seq<nat>, k: nat, handled: nat, counted: bool)
    requires LedgerOk(start, k0) && k < |orig| && Walked(tick, clock, start, mid, orig, k, handled) && Distinct(orig)
    requires LogGrows(mid.log, now.log, clock)
    requires var i := orig[k];
             && i < |start.entries| && IsArmed(start.entries[i]) && |now.entries| == |mid.entries|
             && (forall j | 0 <= j < |mid.entries| && j != i :: Kin(now.entries[j], mid.entries[j]))
             && Handled(tick, mid.entries[i], now.entries[i], true)
             && counted == Counts(tick, mid.entries[i], mid.records)
             && RecordsReached(mid.records, now.records, [i])
    ensures Walked(tick, clock, start, now, orig, k + 1, if counted then handled + 1 else handled)
  {
    LogGrowsOn(start.log, mid.log, now.log, clock);
    var i := orig[k];
    assert orig[..k + 1] == orig[..k] + [i];
    assert i !in orig[..k];
    assert Handled(tick, start.entries[i], mid.entries[i], i in orig[..k]);
    HandleNext(tick, start.entries, mid.entries, now.entries, orig[..k], i);
    var r := start.entries[i].record;
    if r != Nil { assert start.records[r].entry == i && mid.records[r] == start.records[r]; }
  }

  // The rest of a list after its element at |prefix| is dropped.
  lemma DropMiddle(prefix: seq<nat>, rest: seq<nat>)
    requires rest != []
    ensures Drop(prefix + rest, |prefix|) == prefix + rest[1..]
  {
  }

  // ---------- the bare tick ----------

  // A tick that begins the round of the entry's slot would strand it for a whole turn.
  predicate StrandedBy(tick: nat, e: Entry) {
    && 1 <= e.level < Levels && EntryVisit(tick, e) == tick + 1
    && e.deadline < tick + 1 + Slots * Granularity(e.level)
  }

  /** Stepping one tick on without cascading keeps the strong invariant exactly when it strands no entry. */
  lemma BareTickAllIff(tick: nat, entries: seq<Entry>)
    requires AllTimely(tick, entries) && forall j | 0 <= j < |entries| && IsArmed(entries[j]) :: tick < entries[j].deadline
    ensures AllTimely(tick + 1, entries) <==> forall j | 0 <= j < |entries| && IsArmed(entries[j]) :: !StrandedBy(tick, entries[j])
  {
    forall j | 0 <= j < |entries| && IsArmed(entries[j])
      ensures EntryTimely(tick + 1, entries[j]) <==> !StrandedBy(tick, entries[j])
    {
      assert EntryTimely(tick, entries[j]);
      BareTickIff(tick, entries[j].deadline, entries[j].level, entries[j].slot);
    }
  }

  // A periodic entry due at tick 255 whose instance is in flight, the same entry moved on to its next
  // grid point, and a one-shot due at tick 300; a tick lasts one nanosecond.
  const UNIT: Clock := Clock(0, 1)
  const FLYING: Record := Record(100, 255, 0, true, false, 0, 0, 155, 1)
  const DUE: Entry := Entry(255, 0, Nil, Nil, 1, 0, 0, 255)
  const MOVED: Entry := Entry(355, 0, Nil, Nil, 1, 0, 0, 99)
  const LATER: Entry := Entry(300, Nil, Nil, Nil, 1, 0, 1, 1)

  lemma UnitTicks(n: nat)
    ensures TickFor(UNIT, n) == n && NowTick(UNIT, n) == n
  {
  }

  /**
    The bare tick can strand an entry.  A wheel such as BareTickRun brings about stands at tick 250 with
    its next event at tick 255; the only entry due there is a periodic one whose instance is in
    flight, so the step handles nothing and enters tick 256 without cascading.  The one-shot due at
    tick 300 is then next looked at in tick 65792.
   */
  lemma BareTickStrands()
    ensures AllTimely(250, [DUE, LATER]) && Earliest(250, [DUE, LATER], Levels, 255) && Idles(255, DUE, [FLYING])
    ensures AllHandled(255, [DUE, LATER], [MOVED, LATER], [0])
    ensures AllTimely(255, [MOVED, LATER]) && StrandedBy(255, LATER)
    ensures !AllTimely(256, [MOVED, LATER]) && EntryVisit(256, LATER) == 65792
  {
    AtTick250();
    AtTick256();
    assert Visit(255, 0, 99) == 355 && Visit(255, 1, 1) == 256;
  }

  lemma AtTick250()
    ensures AllTimely(250, [DUE, LATER]) && Earliest(250, [DUE, LATER], Levels, 255)
  {
    assert Visit(250, 0, 255) == 255 && Visit(250, 1, 1) == 256;
    var before := [DUE, LATER];
    assert OnLevels(before[0], Levels) && EntryVisit(250, before[0]) == 255;
  }

  lemma AtTick256()
    ensures !AllTimely(256, [MOVED, LATER]) && EntryVisit(256, LATER) == 65792
  {
    assert Visit(256, 1, 1) == 65792;
    assert !EntryTimely(256, [MOVED, LATER][1]);
  }

  // A step that finds nothing due was led here by a slot above level 0, so the tick is a multiple of 256.
  lemma NothingDueAtBoundary(now: nat, next: nat, before: seq<Entry>)
    requires AllTimely(now, before) && Earliest(now, before, Levels, next)
    requires forall j | 0 <= j < |before| && IsArmed(before[j]) :: next < before[j].deadline
    ensures next % Slots == 0
  {
    var i :| 0 <= i < |before| && OnLevels(before[i], Levels) && EntryVisit(now, before[i]) == next;
    assert EntryTimely(now, before[i]);
    assert before[i].level == 0 ==> next == Max(before[i].deadline, now);
    MultipleOfSlots(now, before[i].level, before[i].slot);
  }

  lemma MultipleOfSlots(now: nat, level: nat, slot: nat)
    requires 1 <= level < Levels
    ensures Visit(now, level, slot) % Slots == 0
  {
    var r := Round(now, level, slot);
    GranularityGrows(level - 1);
    var m := Granularity(level - 1);
    assert r * (Slots * m) == (r * m) * Slots;
    WholeTurns(r * m);
  }

  lemma WholeTurns(k: nat)
    ensures k * Slots % Slots == 0
  {
  }

  lemma BoundaryStrandsNone(tick: nat, entries: seq<Entry>)
    requires tick % Slots == 0
    ensures forall j | 0 <= j < |entries| :: !StrandedBy(tick, entries[j])
  {
    forall j | 0 <= j < |entries| ensures !StrandedBy(tick, entries[j]) {
      if 1 <= entries[j].level < Levels { MultipleOfSlots(tick, entries[j].level, entries[j].slot); }
    }
  }

  // ---------- one step of the wheel ----------

  predicate SlotArmed(entries: seq<Entry>, slot: seq<nat>) {
    forall p | 0 <= p < |slot| :: slot[p] < |entries| && IsArmed(entries[slot[p]])
  }

  ghost predicate SlotIsDue(tick: nat, entries: seq<Entry>, slot: seq<nat>) {
    forall i: nat :: i in slot <==> i < |entries| && IsArmed(entries[i]) && entries[i].deadline <= tick
  }

  // A due periodic entry whose last instance is still in flight.
  predicate Idles(tick: nat, e: Entry, records: seq<Record>) {
    IsArmed(e) && e.deadline <= tick && !Counts(tick, e, records)
  }

  // What a fire step at `next` does to each entry of the table.
  predicate StepDeals(now: nat, next: nat, was: Entry, e: Entry) {
    || Carried(now, next, was, e)
    || (IsArmed(was) && was.deadline <= next && Dealt(next, was, e))
  }

  predicate AllDealt(now: nat, next: nat, before: seq<Entry>, entries: seq<Entry>) {
    |entries| == |before| && forall j | 0 <= j < |entries| :: StepDeals(now, next, before[j], entries[j])
  }

  predicate AnyCounts(tick: nat, entries: seq<Entry>, records: seq<Record>) {
    exists j :: 0 <= j < |entries| && IsArmed(entries[j]) && Counts(tick, entries[j], records)
  }

  predicate NoneDue(tick: nat, entries: seq<Entry>) {
    forall j | 0 <= j < |entries| && IsArmed(entries[j]) :: tick < entries[j].deadline
  }

  predicate NoneIdles(tick: nat, entries: seq<Entry>, records: seq<Record>) {
    forall j | 0 <= j < |entries| :: !Idles(tick, entries[j], records)
  }

  function TickAfter(next: nat, handled: nat): nat {
    if handled == 0 then next + 1 else next
  }

  // What a fire step promises of a wheel that was timely.
  predicate StepTimely(next: nat, before: seq<Entry>, records: seq<Record>, entries: seq<Entry>, handled: nat) {
    && (handled < 64 ==> NoneDue(next, entries)) && (AnyCounts(next, before, records) ==> handled > 0)
    && (handled > 0 || NoneIdles(next, before, records) ==> AllTimely(TickAfter(next, handled), entries))
  }

  lemma StepDealsAll(now: nat, next: nat, before: seq<Entry>, mid: seq<Entry>, entries: seq<Entry>, slot: seq<nat>, k: nat)
    requires AllCarried(now, next, before, mid, Nil) && |mid| == |before|
    requires k <= |slot| && AllHandled(next, mid, entries, slot[..k]) && SlotArmed(mid, slot)
    ensures AllDealt(now, next, before, entries)
  {
    forall j | 0 <= j < |entries| ensures StepDeals(now, next, before[j], entries[j]) {
      assert Carried(now, next, before[j], mid[j]);
      assert Handled(next, mid[j], entries[j], j in slot[..k]);
    }
  }

  lemma SlotWithinArmed(entries: seq<Entry>, slot: seq<nat>)
    requires Distinct(slot) && SlotArmed(entries, slot)
    ensures |slot| <= |Armed(entries)|
  {
    DistinctSize(slot);
    assert Armed(entries) == Elements(slot) + (Armed(entries) - Elements(slot));
  }

  // Arrival: a timely wheel advanced to its next event is timely there, and its slot holds what is due.
  lemma ArrivalTimely(now: nat, next: nat, before: seq<Entry>, mid: seq<Entry>)
    requires AllTimely(now, before) && now <= next && Earliest(now, before, Levels, next)
    requires if now < next then AllAdvanced(now, next, before, mid) else mid == before
    ensures AllTimely(next, mid) && AllAlike(mid, before)
  {
    if now < next { AdvanceKeepsTimely(now, next, next, before, mid); }
  }

  lemma FireStepTimely(now: nat, clock: nat, next: nat, before: seq<Entry>, mid: Ledger, after: Ledger, slot: seq<nat>, k: nat, handled: nat)
    requires AllTimely(now, before) && now <= next && Earliest(now, before, Levels, next)
    requires AllTimely(next, mid.entries) && AllAlike(mid.entries, before)
    requires SlotIsDue(next, mid.entries, slot)
    requires k <= |slot| && (handled < 64 ==> k == |slot|) && Walked(next, clock, mid, after, slot, k, handled)
    ensures StepTimely(next, before, mid.records, after.entries, handled)
  {
    assert k == |slot| ==> slot[..k] == slot;
    HandledTimely(next, mid.entries, after.entries, slot[..k]);
    if j :| 0 <= j < |before| && IsArmed(before[j]) && Counts(next, before[j], mid.records) {
      assert Alike(mid.entries[j], before[j]) && j in slot;
    }
    if handled == 0 && NoneIdles(next, before, mid.records) {
      forall j | 0 <= j < |before| && IsArmed(before[j]) ensures next < before[j].deadline {
        assert !Idles(next, before[j], mid.records) && !AnyCounts(next, before, mid.records);
      }
      NothingDueAtBoundary(now, next, before);
      BoundaryStrandsNone(next, after.entries);
      BareTickAllIff(next, after.entries);
    }
  }

  lemma FireStepOutcome(now: nat, clock: nat, next: nat, before: seq<Entry>, mid: Ledger, after: Ledger, slot: seq<nat>, k: nat, handled: nat)
    requires now <= next && Earliest(now, before, Levels, next)
    requires AllAlike(mid.entries, before) && AllCarried(now, next, before, mid.entries, Nil)
    requires Distinct(slot) && SlotArmed(mid.entries, slot)
    requires AllTimely(now, before) ==> AllTimely(next, mid.entries) && SlotIsDue(next, mid.entries, slot)
    requires k <= |slot| && (handled < 64 ==> k == |slot|) && Walked(next, clock, mid, after, slot, k, handled)
    ensures AllDealt(now, next, before, after.entries)
    ensures (handled > 0 ==> AnyCounts(next, before, mid.records)) && handled <= |Armed(mid.entries)|
    ensures AllTimely(now, before) ==> StepTimely(next, before, mid.records, after.entries, handled)
  {
    SlotWithinArmed(mid.entries, slot);
    if handled > 0 {
      assert !NoneCounted(next, mid, slot[..k]);
      var p :| 0 <= p < k && !(slot[p] < |mid.entries| && !Counts(next, mid.entries[slot[p]], mid.records));
      assert Alike(mid.entries[slot[p]], before[slot[p]]);
    }
    StepDealsAll(now, next, before, mid.entries, after.entries, slot, k);
    if AllTimely(now, before) { FireStepTimely(now, clock, next, before, mid, after, slot, k, handled); }
  }

  // No event up to a tick means nothing due by then, once the wheel itself is no later.
  lemma NotYetDue(now: nat, entries: seq<Entry>, next: int, tick: nat)
    requires AllTimely(now, entries) && Earliest(now, entries, Levels, next) && (next < 0 || tick < next)
    ensures NoneDue(tick, entries) || tick < now
  {
    forall j | 0 <= j < |entries| && IsArmed(entries[j]) && now <= tick ensures tick < entries[j].deadline {
      assert EntryTimely(now, entries[j]) && OnLevels(entries[j], Levels);
    }
  }

  /** With nothing due, no armed one-shot is a whole tick past its time. */
  lemma NobodyIsLate(l: Ledger, k: Clock, clock: nat)
    requires LedgerOk(l, k) && k.epoch <= clock && NoneDue(NowTick(k, clock), l.entries)
    ensures forall h | h in l.promised && Live(l.entries, h) :: clock < l.promised[h] + k.tick
  {
    forall h | h in l.promised && Live(l.entries, h) ensures clock < l.promised[h] + k.tick {
      TickForRoundsUp(k, l.promised[h], clock);
      assert IsArmed(l.entries[h.index]);
    }
  }

  lemma DealtLater(now: nat, next: nat, tick: nat, before: seq<Entry>, entries: seq<Entry>)
    requires AllDealt(now, next, before, entries) && next <= tick
    ensures |entries| == |before| && forall j | 0 <= j < |entries| && !(IsArmed(before[j]) && before[j].deadline <= tick) ::
              Alike(entries[j], before[j])
  {
    forall j | 0 <= j < |entries| && !(IsArmed(before[j]) && before[j].deadline <= tick)
      ensures Alike(entries[j], before[j])
    {
      assert StepDeals(now, next, before[j], entries[j]);
    }
  }

  class Wheel {
    const heads: array<int>
    const occ: array<Word>
    var entries: seq<Entry>
    var currentTick: nat
    var freeHead: nat
    var armedCount: int
    var records: seq<Record>
    const clock: Clock
    ghost var cells: seq<seq<nat>>     // what the slot lists spell
    ghost var free: seq<nat>           // what the free list spells
    ghost var issued: set<Handle>      // history, as in Ledger
    ghost var promised: map<Handle, nat>
    ghost var log: seq<Settlement>

    ghost predicate Linked(rest: seq<nat>)
      reads this, heads, occ
    {
      WheelOk(entries, heads[..], occ[..], cells, rest)
    }

    method Link(i: nat, level: nat, slot: nat, ghost rest: seq<nat>)
      requires Linked(rest) && i < |entries| && entries[i].level == -1 && i !in rest
      requires level < Levels && slot < Slots
      modifies this`entries, this`cells, heads, occ
      ensures Linked(rest) && |entries| == |old(entries)|
      ensures forall j | 0 <= j < |entries| && j != i :: Kin(entries[j], old(entries)[j])
      ensures Kin(entries[i], old(entries)[i].(level := level, slot := slot))
      ensures cells == old(cells)[Cell(level, slot) := [i] + old(cells)[Cell(level, slot)]]
    {
      var c := Cell(level, slot);
      LinkOk(entries, heads[..], occ[..], cells, rest, i, level, slot);
      UnlinkedIsNowhere(entries, heads[..], cells, i);
      LinkKin(entries, heads[..], cells, i, level, slot);
      assert ListOk(entries, heads[..][c], cells[c], c);
      var head := heads[c];
      entries := entries[i := entries[i].(level := level, slot := slot, prev := Nil, next := head)];
      if head != Nil { entries := entries[head := entries[head].(prev := i)]; }
      heads[c] := i;
      occ[c / WordBits] := occ[c / WordBits] + {c % WordBits};
      cells := cells[c := [i] + cells[c]];
    }

    // Position k is where entry i stands in its list.
    method Unlink(i: nat, ghost k: nat)
      requires Linked([]) && i < |entries|
      requires entries[i].level != -1 ==> StandsAt(entries, cells, i, k)
      modifies this`entries, this`cells, heads, occ
      ensures Linked([]) && |entries| == |old(entries)|
      ensures forall j | 0 <= j < |entries| && j != i :: Kin(entries[j], old(entries)[j])
      ensures Kin(entries[i], old(entries)[i].(level := -1))
      ensures cells == if old(entries)[i].level == -1 then old(cells) else Removed(old(entries), old(cells), i, k)
    {
      var e := entries[i];
      if e.level < 0 {
        assert !Listed(e, i, cells);
        return;
      }
      var c := Cell(e.level, e.slot);
      UnlinkOk(entries, heads[..], occ[..], cells, c, k);
      assert ListOk(entries, heads[..][c], cells[c], c);
      UnlinkKin(entries, heads[c], cells[c], c, k);
      assert k > 0 ==> NodeOk(entries, cells[c], c, k - 1);
      assert k + 1 < |cells[c]| ==> NodeOk(entries, cells[c], c, k + 1);
      if e.prev != Nil { entries := entries[e.prev := entries[e.prev].(next := e.next)]; }
      else { heads[c] := e.next; }
      if e.next != Nil { entries := entries[e.next := entries[e.next].(prev := e.prev)]; }
      entries := entries[i := entries[i].(prev := Nil, next := Nil, level := -1)];
      if heads[c] == Nil { occ[c / WordBits] := occ[c / WordBits] - {c % WordBits}; }
      else { assert Bit(occ[..], c); }
      cells := cells[c := Drop(cells[c], k)];
    }

    method Place(i: nat, deadline: nat, ghost rest: seq<nat>)
      requires Linked(rest) && i < |entries| && entries[i].level == -1 && i !in rest
      modifies this`entries, this`cells, heads, occ
      ensures Linked(rest) && |entries| == |old(entries)|
      ensures forall j | 0 <= j < |entries| && j != i :: Kin(entries[j], old(entries)[j])
      ensures SameTimer(entries[i], old(entries)[i])
      ensures (entries[i].level, entries[i].slot) == Placement(currentTick, deadline)
      ensures var (level, slot) := Placement(currentTick, deadline);
              level < Levels && slot < Slots
              && cells == old(cells)[Cell(level, slot) := [i] + old(cells)[Cell(level, slot)]]
    {
      if deadline <= currentTick {
        Link(i, 0, currentTick % Slots, rest);
        return;
      }
      for level := 0 to Levels
        invariant Linked(rest) && entries == old(entries) && cells == old(cells)
        invariant level > 0 ==> deadline - currentTick >= Granularity(level)
      {
        if deadline - currentTick < Granularity(level + 1) {
          Link(i, level, deadline / Granularity(level) % Slots, rest);
          return;
        }
      }
      Link(i, Levels - 1, (currentTick + MaxTicks - 1) / Granularity(Levels - 1) % Slots, rest);
    }

    // One round of Cascade's loop: entry i, the first of `rest`, is placed for the current tick.
    method PlaceAgain(i: nat, ghost rest: seq<nat>) returns (next: int)
      requires Linked(rest) && rest != [] && i == rest[0]
      modifies this`entries, this`cells, heads, occ
      ensures next == At(rest[1..], 0) && i < |entries| == |old(entries)| && Linked(rest[1..]) && i !in rest[1..]
      ensures forall j | 0 <= j < |entries| && j != i :: Kin(entries[j], old(entries)[j])
      ensures SameTimer(entries[i], old(entries)[i]) && PlacedAt(currentTick, entries[i])
    {
      assert RestNode(entries, rest, 0);
      next := entries[i].next;
      ResetOk(entries, heads[..], occ[..], cells, rest, entries[i].(prev := Nil, next := Nil, level := -1));
      entries := entries[i := entries[i].(prev := Nil, next := Nil, level := -1)];
      Place(i, entries[i].deadline, rest[1..]);
    }

    // The start of Cascade: the cell's list is taken off it whole.
    method Detach(c: nat) returns (head: int)
      requires Linked([]) && c < CellCount
      modifies this`cells, heads, occ
      ensures Linked(old(cells)[c]) && head == At(old(cells)[c], 0)
      ensures forall i | i in old(cells)[c] :: i < |entries| && InCell(entries[i], c)
      ensures AllRecast(currentTick, entries, entries, c, old(cells)[c])
    {
      DetachOk(entries, heads[..], occ[..], cells, c);
      assert ListOk(entries, heads[..][c], cells[c], c);
      head := heads[c];
      heads[c] := Nil;
      occ[c / WordBits] := occ[c / WordBits] - {c % WordBits};
      cells := cells[c := []];
    }

    method Cascade(level: nat, slot: nat)
      requires Linked([]) && level < Levels && slot < Slots
      modifies this`entries, this`cells, heads, occ
      ensures Linked([]) && AllRecast(currentTick, old(entries), entries, Cell(level, slot), [])
    {
      ghost var c := Cell(level, slot);
      ghost var rest: seq<nat> := cells[c];
      ghost var before := entries;
      var i := Detach(Cell(level, slot));
      while i != Nil
        invariant i == At(rest, 0) && Linked(rest)
        invariant AllRecast(currentTick, before, entries, c, rest) && forall j | j in rest :: j < |before| && InCell(before[j], c)
        decreases |rest|
      {
        ghost var mid := entries;
        i := PlaceAgain(i, rest);
        RecastFirst(currentTick, before, mid, entries, c, rest);
        rest := rest[1..];
      }
    }

    // One level of NextEventTick; -1 when the level is empty.
    method LevelEventTick(level: nat, ghost best: int) returns (when: int)
      requires Linked([]) && level < Levels && Earliest(currentTick, entries, level, best)
      ensures when >= -1
      ensures Earliest(currentTick, entries, level + 1,
                       if when >= 0 && (best < 0 || when < best) then when else best)
    {
      var empty := LevelEmpty(occ, level);
      if empty {
        EarliestClear(entries, heads[..], occ[..], cells, currentTick, level, best);
        return -1;
      }
      var from := SearchFrom(currentTick, level);
      var slot := NextOccupied(occ, level, from);
      if slot == Slots { return -1; }
      WhenIsVisit(currentTick, level, slot);
      EarliestExtends(entries, heads[..], occ[..], cells, currentTick, level, best, slot);
      return When(currentTick, level, from, slot);
    }

    /** The earliest tick at which the wheel looks at an occupied slot; -1 when nothing is linked. */
    method NextEventTick() returns (best: int)
      requires Linked([])
      ensures Earliest(currentTick, entries, Levels, best)
      ensures best >= 0 ==> best >= currentTick
    {
      best := -1;
      for level := 0 to Levels
        invariant Earliest(currentTick, entries, level, best)
      {
        var when := LevelEventTick(level, best);
        if when >= 0 && (best < 0 || when < best) { best := when; }
      }
      EarliestAhead(currentTick, entries, best);
    }

    // Cascade one slot unless its list is empty.
    method SweepSlot(level: nat, slot: nat, ghost now: nat, ghost before: seq<Entry>, ghost seen: set<nat>)
      requires Linked([]) && Passed(now, currentTick, level, slot)
      requires AllSweeping(now, currentTick, before, entries, level, seen)
      modifies this`entries, this`cells, heads, occ
      ensures Linked([]) && AllSweeping(now, currentTick, before, entries, level, seen + {slot})
    {
      if heads[Cell(level, slot)] != Nil {
        ghost var mid := entries;
        Cascade(level, slot);
        SweepCell(now, currentTick, before, mid, entries, level, slot, seen);
      } else {
        SweepEmpty(now, currentTick, before, entries, heads[..], cells, level, slot, seen);
      }
    }

    // One level of AdvanceTo's loop.
    method SweepLevel(level: nat, now: nat, ghost before: seq<Entry>)
      requires Linked([]) && 1 <= level < Levels && now <= currentTick
      requires now / Granularity(level) <= currentTick / Granularity(level)
      requires AllSweeping(now, currentTick, before, entries, level, {})
      modifies this`entries, this`cells, heads, occ
      ensures Linked([]) && AllSweeping(now, currentTick, before, entries, level + 1, {})
    {
      var start, to := now / Granularity(level), currentTick / Granularity(level);
      ghost var seen: set<nat> := {};
      if to - start >= Slots {
        for slot := 0 to Slots
          invariant Linked([]) && AllSweeping(now, currentTick, before, entries, level, seen)
          invariant forall k: nat | k < slot :: k in seen
        {
          SweepSlot(level, slot, now, before, seen);
          seen := seen + {slot};
        }
      } else {
        for round := start + 1 to to + 1
          invariant Linked([]) && AllSweeping(now, currentTick, before, entries, level, seen)
          invariant forall r | start < r < round :: SlotOf(r) in seen
        {
          assert Passed(now, currentTick, level, SlotOf(round));
          SweepSlot(level, SlotOf(round), now, before, seen);
          seen := seen + {SlotOf(round)};
        }
      }
      SweepLevelDone(now, currentTick, before, entries, level, seen);
    }

    /**
      Every entry above level 0 whose slot's round is passed is placed again, timely for the new
      tick; every other entry stays where it is.  No entry is lost, whatever the target.
     */
    method AdvanceTo(target: nat)
      requires Linked([])
      modifies this`entries, this`cells, this`currentTick, heads, occ
      ensures Linked([]) && currentTick == Max(old(currentTick), target)
      ensures target <= old(currentTick) ==> entries == old(entries) && cells == old(cells)
      ensures target > old(currentTick) ==> AllAdvanced(old(currentTick), target, old(entries), entries)
    {
      if target <= currentTick { return; }
      var now := currentTick;
      ghost var before := entries;
      currentTick := target;
      var level := 1;
      while level < Levels && now / Granularity(level) != target / Granularity(level)
        invariant 1 <= level <= Levels && Linked([]) && currentTick == target
        invariant AllSweeping(now, target, before, entries, level, {})
      {
        DivAtLeast(target, Granularity(level), now / Granularity(level));
        SweepLevel(level, now, before);
        level := level + 1;
      }
      SweepDone(now, target, before, entries, level);
    }

    // ---------- the entry table ----------

    ghost function Book(): Ledger
      reads this
    {
      Ledger(entries, freeHead, free, armedCount, records, issued, promised, log)
    }

    ghost predicate Valid()
      reads this, heads, occ
    {
      Linked([]) && LedgerOk(Book(), clock)
    }

    constructor (clock: Clock)
      requires ClockOk(clock)
      ensures Valid() && fresh(heads) && fresh(occ) && this.clock == clock
      ensures entries == [] && log == [] && issued == {} && promised == map[] && currentTick == 0
    {
      heads := new int[CellCount](_ => Nil);
      occ := new Word[Levels * Words](_ => {});
      entries, currentTick, freeHead, armedCount, records := [], 0, 0, 0, [];
      this.clock := clock;
      cells, free, issued, promised, log := seq(CellCount, _ => []), [], {}, map[], [];
      new;
      assert forall c | 0 <= c < CellCount :: heads[..][c] == Nil && cells[c] == [];
      assert forall w | 0 <= w < Levels * Words :: occ[..][w] == {};
      assert Armed(entries) == {};
    }

    // Unlink, one generation on, back to the free list.
    method Retire(i: nat, ghost k: nat)
      requires Linked([]) && i < |entries| && IsArmed(entries[i]) && StandsAt(entries, cells, i, k)
      modifies this`entries, this`cells, this`freeHead, this`free, this`armedCount, heads, occ
      ensures Linked([]) && |entries| == |old(entries)|
      ensures forall j | 0 <= j < |entries| && j != i :: Kin(entries[j], old(entries)[j])
      ensures SettledEntry(entries[i], old(entries)[i], old(freeHead))
      ensures freeHead == i + 1 && free == [i] + old(free) && armedCount == old(armedCount) - 1
      ensures cells == Removed(old(entries), old(cells), i, k)
    {
      Unlink(i, k);
      var e := entries[i];
      var released := e.(generation := e.generation + 1, record := Nil, level := -1, nextFree := freeHead);
      EditOk(entries, heads[..], occ[..], cells, i, released);
      entries := entries[i := released];
      freeHead := i + 1;
      armedCount := armedCount - 1;
      free := [i] + free;
    }

    ghost function Position(i: nat): (k: nat)
      requires Linked([]) && i < |entries| && IsArmed(entries[i])
      reads this, heads, occ
      ensures StandsAt(entries, cells, i, k)
    {
      assert Listed(entries[i], i, cells);
      var xs := cells[Cell(entries[i].level, entries[i].slot)];
      var k :| 0 <= k < |xs| && xs[k] == i;
      k
    }

    /**
      True exactly for a handle that is still armed, which it settles; any other call changes nothing.
      The one exception is a handle no caller was given, which names a periodic entry's own generation:
      its entry is released and its record is not told, so the books are kept if and only if the handle
      is not of that kind.
     */
    method Disarm(h: Handle) returns (disarmed: bool)
      requires Valid()
      modifies this`entries, this`cells, this`freeHead, this`free, this`armedCount, this`log, heads, occ
      ensures Linked([]) && (Valid() <==> !NamesPeriodic(old(entries), h))
      ensures disarmed == ((h in issued && !Settled(old(log), h)) || NamesPeriodic(old(entries), h))
      ensures log == if disarmed && Valid() then old(log) + [Settlement(h, Disarmed)] else old(log)
      ensures !disarmed ==> entries == old(entries) && armedCount == old(armedCount)
      ensures |entries| == |old(entries)|
      ensures forall j | 0 <= j < |entries| && j != h.index :: Kin(entries[j], old(entries)[j])
      ensures disarmed ==> h.index < |entries| && !IsArmed(entries[h.index]) && armedCount == old(armedCount) - 1
    {
      ghost var before := Book();
      HandleKinds(before, clock, h);
      if h.index >= |entries| { return false; }
      if entries[h.index].generation != h.generation || h.generation % 2 == 0 { return false; }
      Retire(h.index, Position(h.index));
      if !NamesPeriodic(before.entries, h) {
        log := log + [Settlement(h, Disarmed)];
        LedgerSettle(before, Book(), clock, h.index, Disarmed);
      } else {
        DanglingRecord(before, Book(), clock, h);
      }
      return true;
    }

    // AcquireEntry, then one generation on and linked for the deadline.
    method Install(deadline: nat, record: int) returns (i: nat)
      requires Linked([]) && LedgerOk(Book(), clock)
      modifies this`entries, this`cells, this`freeHead, this`free, this`armedCount, heads, occ
      ensures Linked([]) && armedCount == old(armedCount) + 1
      ensures Acquired(old(Book()), Book(), i) && IsArmed(entries[i])
      ensures entries[i].deadline == deadline && entries[i].record == record && PlacedAt(currentTick, entries[i])
      ensures forall j | 0 <= j < |old(entries)| && j != i :: Kin(entries[j], old(entries)[j])
    {
      ghost var before := Book();
      if freeHead != 0 {
        assert FreeNode(entries, free, 0);
        i := freeHead - 1;
        freeHead := entries[i].nextFree;
        free := free[1..];
      } else {
        GrowOk(entries, heads[..], occ[..], cells, Entry(0, Nil, Nil, Nil, 0, 0, -1, 0));
        entries := entries + [Entry(0, Nil, Nil, Nil, 0, 0, -1, 0)];
        i := |entries| - 1;
      }
      assert entries[i].level == -1;
      var e := entries[i].(generation := entries[i].generation + 1, deadline := deadline, record := record);
      EditOk(entries, heads[..], occ[..], cells, i, e);
      entries := entries[i := e];
      ghost var placed := entries;
      Place(i, deadline, []);
      armedCount := armedCount + 1;
      PlacedIsTimely(currentTick, entries[i]);
      InstallAcquired(before, placed, Book(), i);
    }

    // AdvanceTo the present, before an entry is armed.
    method CatchUp(nowTick: nat)
      requires Valid()
      modifies this`entries, this`cells, this`currentTick, heads, occ
      ensures Valid() && currentTick == Max(old(currentTick), nowTick) && AllAlike(entries, old(entries))
      ensures AllCarried(old(currentTick), currentTick, old(entries), entries, Nil)
      ensures old(AllTimely(currentTick, entries)) ==>
                (AllTimely(currentTick, entries) <==> Overrun(old(currentTick), currentTick, old(entries)) == {})
    {
      ghost var book := Book();
      AdvanceTo(nowTick);
      if nowTick > old(currentTick) { AdvanceOverrun(old(currentTick), nowTick, old(entries), entries); }
      LedgerAlike(book, clock, entries);
    }

    /**
      A fresh handle, whose entry is due no earlier than the time asked for.  The wheel stays
      timely if it was and the advance to the present overran no entry of level 0.
     */
    method Arm(delay: int, clock1: nat, clock2: nat, admitted: bool) returns (h: Handle, armed: bool)
      requires Valid() && clock.epoch <= clock1 <= clock2
      modifies this`entries, this`cells, this`currentTick, this`freeHead, this`free, this`armedCount,
               this`issued, this`promised, heads, occ
      ensures Valid() && armed == admitted && log == old(log) && records == old(records)
      ensures !armed ==> entries == old(entries) && currentTick == old(currentTick) && issued == old(issued)
      ensures armed ==> h !in old(issued) && issued == old(issued) + {h} && Live(entries, h)
      ensures armed ==> armedCount == old(armedCount) + 1
      ensures armed && delay > 0 ==>
                promised == old(promised)[h := clock2 + delay] && entries[h.index].deadline == TickFor(clock, clock2 + delay)
      ensures armed && delay <= 0 ==> promised == old(promised) && entries[h.index].deadline == NowTick(clock, clock1)
      ensures |entries| <= |old(entries)| + 1
      ensures armed ==> PlacedAt(currentTick, entries[h.index])
                        && AllCarried(old(currentTick), currentTick, old(entries), entries, h.index)
      ensures armed ==> currentTick == Max(old(currentTick), NowTick(clock, clock1))
      ensures old(AllTimely(currentTick, entries)) && Overrun(old(currentTick), currentTick, old(entries)) == {}
              ==> AllTimely(currentTick, entries)
    {
      if !admitted { return Handle(0, 0), false; }
      var nowTick := NowTick(clock, clock1);
      var deadline := if delay > 0 then TickFor(clock, clock2 + delay) else nowTick;
      CatchUp(nowTick);
      ghost var mid := entries;
      h := ArmOneShot(deadline, if delay > 0 then clock2 + delay else 0, delay > 0);
      CarriedThenKin(old(currentTick), currentTick, old(entries), mid, entries, h.index);
      return h, true;
    }

    // The rest of Arm, once the wheel is at the present.
    method ArmOneShot(deadline: nat, ghost promise: nat, ghost hasPromise: bool) returns (h: Handle)
      requires Valid() && (hasPromise ==> deadline == TickFor(clock, promise))
      modifies this`entries, this`cells, this`freeHead, this`free, this`armedCount, this`issued, this`promised, heads, occ
      ensures Valid() && armedCount == old(armedCount) + 1
      ensures h !in old(issued) && issued == old(issued) + {h}
      ensures promised == if hasPromise then old(promised)[h := promise] else old(promised)
      ensures Live(entries, h) && entries[h.index].deadline == deadline && PlacedAt(currentTick, entries[h.index])
      ensures |old(entries)| <= |entries| <= |old(entries)| + 1
      ensures forall j | 0 <= j < |old(entries)| && j != h.index :: Kin(entries[j], old(entries)[j])
      ensures old(AllTimely(currentTick, entries)) ==> AllTimely(currentTick, entries)
    {
      ghost var book := Book();
      var i := Install(deadline, Nil);
      h := Handle(i, entries[i].generation);
      issued := issued + {h};
      if hasPromise { promised := promised[h := promise]; }
      LedgerArm(book, Book(), clock, i, promise, hasPromise);
      if AllTimely(currentTick, book.entries) { InstallTimely(currentTick, book, Book(), i); }
    }

    // ---------- firing ----------

    method FireOneShot(i: nat, ghost k: nat, now: nat)
      requires Valid() && i < |entries| && IsArmed(entries[i]) && StandsAt(entries, cells, i, k)
      requires entries[i].record == Nil && clock.epoch <= now && entries[i].deadline <= NowTick(clock, now)
      modifies this`entries, this`cells, this`freeHead, this`free, this`armedCount, this`log, heads, occ
      ensures Valid() && |entries| == |old(entries)|
      ensures forall j | 0 <= j < |entries| && j != i :: Kin(entries[j], old(entries)[j])
      ensures Dealt(currentTick, old(entries)[i], entries[i])
      ensures cells == Removed(old(entries), old(cells), i, k)
      ensures log == old(log) + [Settlement(Handle(i, old(entries)[i].generation), Fired(now))]
    {
      ghost var book := Book();
      Retire(i, k);
      log := log + [Settlement(Handle(i, book.entries[i].generation), Fired(now))];
      LedgerSettle(book, Book(), clock, i, Fired(now));
    }

    // An armed entry gets a new deadline and the place that goes with it.
    method MoveTo(i: nat, ghost k: nat, deadline: nat) returns (ghost to: nat)
      requires Linked([]) && i < |entries| && IsArmed(entries[i]) && StandsAt(entries, cells, i, k)
      modifies this`entries, this`cells, heads, occ
      ensures Linked([]) && |entries| == |old(entries)|
      ensures forall j | 0 <= j < |entries| && j != i :: Kin(entries[j], old(entries)[j])
      ensures SameTimer(entries[i], old(entries)[i].(deadline := deadline)) && IsArmed(entries[i])
      ensures PlacedAt(currentTick, entries[i])
      ensures var removed := Removed(old(entries), old(cells), i, k);
              to < CellCount && cells == removed[to := [i] + removed[to]]
    {
      Unlink(i, k);
      var e := entries[i].(deadline := deadline);
      EditOk(entries, heads[..], occ[..], cells, i, e);
      entries := entries[i := e];
      Place(i, deadline, []);
      PlacedIsTimely(currentTick, entries[i]);
      to := Cell(entries[i].level, entries[i].slot);
    }

    /**
      The entry moves to the first grid point after the clock; an instance is launched unless one
      is in flight, and every grid point passed over is counted as skipped.
     */
    method FirePeriodic(i: nat, ghost k: nat, now: nat) returns (launch: bool, ghost to: nat)
      requires Valid() && i < |entries| && IsArmed(entries[i]) && StandsAt(entries, cells, i, k)
      requires entries[i].record != Nil && clock.epoch <= now && currentTick <= NowTick(clock, now)
      modifies this`entries, this`cells, this`records, heads, occ
      ensures Valid() && |entries| == |old(entries)|
      ensures forall j | 0 <= j < |entries| && j != i :: Kin(entries[j], old(entries)[j])
      ensures Dealt(currentTick, old(entries)[i], entries[i])
      ensures var r := old(entries)[i].record;
              && 0 <= r < |old(records)| && old(records)[r].interval > 0
              && records == old(records)[r := NextPoint(old(records)[r], now)]
              && launch == !old(records)[r].inFlight
      ensures var removed := Removed(old(entries), old(cells), i, k);
              to < CellCount && cells == removed[to := [i] + removed[to]]
    {
      ghost var book := Book();
      var r := entries[i].record;
      assert 0 <= r < |records| && RecordOk(records[r], clock);
      var rec := NextPoint(records[r], now);
      NextPointIsAhead(records[r], clock, now);
      TickForRoundsUp(clock, rec.due, now);
      launch := !records[r].inFlight;
      records := records[r := rec];
      to := MoveTo(i, k, TickFor(clock, rec.due));
      LedgerRegrid(book, Book(), clock, i, now);
    }

    // Position k of the current slot's list, entry `rest[0]`, and what follows it.
    lemma SlotNext(prefix: seq<nat>, rest: seq<nat>)
      requires Linked([]) && cells[CurrentCell(currentTick)] == prefix + rest && rest != []
      ensures rest[0] < |entries| && IsArmed(entries[rest[0]]) && entries[rest[0]].next == At(rest, 1)
      ensures StandsAt(entries, cells, rest[0], |prefix|)
      ensures |cells| == CellCount
      ensures Removed(entries, cells, rest[0], |prefix|) == cells[CurrentCell(currentTick) := prefix + rest[1..]]
    {
      var c := CurrentCell(currentTick);
      assert ListOk(entries, heads[..][c], cells[c], c) && NodeOk(entries, cells[c], c, |prefix|);
      DropMiddle(prefix, rest);
    }

    // FirePeriodic on entry i of the current slot; the list goes on behind it.
    method RegridEntry(i: nat, reading: nat, ghost prefix: seq<nat>, ghost rest: seq<nat>)
      returns (counted: bool, ghost prefix': seq<nat>)
      requires Valid() && clock.epoch <= reading && currentTick <= NowTick(clock, reading)
      requires cells[CurrentCell(currentTick)] == prefix + rest && rest != [] && rest[0] == i < |entries|
      requires entries[i].deadline <= currentTick && entries[i].record != Nil
      modifies this`entries, this`cells, this`records, heads, occ
      ensures Valid() && i < |entries| == |old(entries)|
      ensures forall j | 0 <= j < |entries| && j != i :: Kin(entries[j], old(entries)[j])
      ensures Dealt(currentTick, old(entries)[i], entries[i])
      ensures cells[CurrentCell(currentTick)] == prefix' + rest[1..]
      ensures counted == Counts(currentTick, old(entries)[i], old(records)) && RecordsReached(old(records), records, [i])
      ensures RecordsMoved(old(records), records, reading)
    {
      hide WheelOk, LedgerOk;
      SlotNext(prefix, rest);
      ghost var to: nat;
      ghost var book := Book();
      counted, to := FirePeriodic(i, |prefix|, reading);
      prefix' := if to == CurrentCell(currentTick) then [i] + prefix else prefix;
      OneRecordMoves(book, clock, i, reading, records);
    }

    // One round of FireStepLocked's loop: entry i stands after `prefix` in the current slot.
    method FireEntry(i: nat, now: nat, reading: nat, ghost prefix: seq<nat>, ghost rest: seq<nat>)
      returns (counted: bool, ghost prefix': seq<nat>)
      requires Valid() && clock.epoch <= now <= reading && currentTick <= NowTick(clock, now) <= NowTick(clock, reading)
      requires cells[CurrentCell(currentTick)] == prefix + rest && rest != [] && rest[0] == i
      modifies this`entries, this`cells, this`freeHead, this`free, this`armedCount, this`log, this`records, heads, occ
      ensures Valid() && i < |entries| == |old(entries)|
      ensures forall j | 0 <= j < |entries| && j != i :: Kin(entries[j], old(entries)[j])
      ensures Handled(currentTick, old(entries)[i], entries[i], true)
      ensures cells[CurrentCell(currentTick)] == prefix' + rest[1..]
      ensures counted == Counts(currentTick, old(entries)[i], old(records))
      ensures LogGrows(old(log), log, now) && RecordsReached(old(records), records, [i])
      ensures RecordsMoved(old(records), records, reading)
    {
      SlotNext(prefix, rest);
      var e := entries[i];
      if e.deadline <= currentTick && e.record != Nil {
        counted, prefix' := RegridEntry(i, reading, prefix, rest);
      } else if e.deadline <= currentTick {
        FireOneShot(i, |prefix|, now);
        counted, prefix' := true, prefix;
      } else {
        counted, prefix' := false, prefix + [i];
      }
    }

    // The walk over the current slot, whose list was `orig` in the state `start`, has come to its k-th entry.
    ghost predicate WalkInv(start: Ledger, orig: seq<nat>, prefix: seq<nat>, k: nat, i: int, handled: nat, now: nat)
      reads this, heads, occ
    {
      && Valid() && LedgerOk(start, clock) && Distinct(orig) && SlotArmed(start.entries, orig)
      && k <= |orig| && cells[CurrentCell(currentTick)] == prefix + orig[k..] && i == At(orig, k)
      && Walked(currentTick, now, start, Book(), orig, k, handled)
    }

    lemma WalkBegin(now: nat)
      requires Valid()
      ensures heads.Length == CellCount
      ensures var c := CurrentCell(currentTick);
              WalkInv(Book(), cells[c], [], 0, heads[c], 0, now)
    {
      var c := CurrentCell(currentTick);
      SlotEntries(entries, heads[..], cells, c);
      WalkStart(currentTick, now, Book(), cells[c]);
      assert ListOk(entries, heads[..][c], cells[c], c);
    }

    // The walk is over: the limit was reached, or the list's end.
    lemma WalkEnd(start: Ledger, orig: seq<nat>, prefix: seq<nat>, k: nat, i: int, handled: nat, now: nat)
      requires WalkInv(start, orig, prefix, k, i, handled, now)
      ensures Valid() && k <= |orig| && (i == Nil ==> k == |orig|)
      ensures Walked(currentTick, now, start, Book(), orig, k, handled)
    {
    }

    // FireEntry within the walk.
    method FireRound(i: int, handled: nat, now: nat, reading: nat,
                     ghost start: Ledger, ghost orig: seq<nat>, ghost k: nat, ghost prefix: seq<nat>, ghost hi: nat)
      returns (next: int, handled': nat, ghost prefix': seq<nat>)
      requires WalkInv(start, orig, prefix, k, i, handled, now) && i != Nil && RecordsMoved(start.records, records, hi)
      requires clock.epoch <= now <= reading && currentTick <= NowTick(clock, now)
      modifies this`entries, this`cells, this`freeHead, this`free, this`armedCount, this`log, this`records, heads, occ
      ensures k < |orig| && WalkInv(start, orig, prefix', k + 1, next, handled', now)
      ensures RecordsMoved(start.records, records, Max(hi, reading))
      ensures handled <= handled' <= handled + 1
    {
      ghost var mid := Book();
      SlotNext(prefix, orig[k..]);
      next := entries[i].next;
      var counted: bool;
      NowTickMonotone(clock, now, reading);
      counted, prefix' := FireEntry(i, now, reading, prefix, orig[k..]);
      RecordsMovedOn(start.records, mid.records, records, orig[..k], i, hi, reading);
      WalkOn(currentTick, now, clock, start, mid, Book(), orig, k, handled, counted);
      handled' := if counted then handled + 1 else handled;
      assert orig[k..][1..] == orig[k + 1..];
    }

    // The loop of the walk, from the head of the slot's list; `hi` is the latest clock reading.
    method WalkSlot(head: int, now: nat, readings: nat -> nat, ghost start: Ledger, ghost orig: seq<nat>)
      returns (handled: nat, ghost k: nat, ghost hi: nat)
      requires WalkInv(start, orig, [], 0, head, 0, now) && RecordsMoved(start.records, records, now)
      requires clock.epoch <= now && currentTick <= NowTick(clock, now) && forall k: nat :: now <= readings(k)
      modifies this`entries, this`cells, this`freeHead, this`free, this`armedCount, this`log, this`records, heads, occ
      ensures Valid() && handled <= 64 && k <= |orig| && (handled < 64 ==> k == |orig|)
      ensures Walked(currentTick, now, start, Book(), orig, k, handled) && RecordsMoved(start.records, records, hi)
      ensures hi == now || exists m: nat :: hi == readings(m)
    {
      hide WalkInv, RecordsMoved, Walked;
      var i, round: nat := head, 0;
      ghost var prefix: seq<nat>, m: nat := [], 0;
      k, hi := 0, now;
      handled := 0;
      while i != Nil && handled < 64
        invariant WalkInv(start, orig, prefix, k, i, handled, now) && handled <= 64
        invariant RecordsMoved(start.records, records, hi) && (hi == now || hi == readings(m))
        decreases |orig| - k
      {
        var reading := readings(round);
        i, handled, prefix := FireRound(i, handled, now, reading, start, orig, k, prefix, hi);
        if reading > hi { m := round; }
        k, hi := k + 1, Max(hi, reading);
        round := round + 1;
      }
      WalkEnd(start, orig, prefix, k, i, handled, now);
    }

    /**
      The walk over the current slot: every due entry it reaches is dealt with, no other entry is
      touched, and it reaches the whole slot unless 64 were fired or launched first.
     */
    method FireSlot(now: nat, readings: nat -> nat) returns (handled: nat, ghost k: nat, ghost hi: nat)
      requires Valid() && clock.epoch <= now && currentTick <= NowTick(clock, now)
      requires forall k: nat :: now <= readings(k)
      modifies this`entries, this`cells, this`freeHead, this`free, this`armedCount, this`log, this`records, heads, occ
      ensures Valid() && handled <= 64
      ensures var slot := old(cells)[CurrentCell(currentTick)];
              && k <= |slot| && (handled < 64 ==> k == |slot|)
              && Walked(currentTick, now, old(Book()), Book(), slot, k, handled)
      ensures RecordsMoved(old(records), records, hi) && (hi == now || exists m: nat :: hi == readings(m))
    {
      WalkBegin(now);
      var c := CurrentCell(currentTick);
      handled, k, hi := WalkSlot(heads[c], now, readings, Book(), cells[c]);
    }

    // AdvanceTo the next event: the start of a fire step.
    method Arrive(next: nat)
      requires Valid() && Earliest(currentTick, entries, Levels, next)
      modifies this`entries, this`cells, this`currentTick, heads, occ
      ensures Valid() && currentTick == next && AllAlike(entries, old(entries))
      ensures old(AllTimely(currentTick, entries)) ==> AllTimely(next, entries)
      ensures old(AllTimely(currentTick, entries)) ==> SlotIsDue(next, entries, cells[CurrentCell(next)])
      ensures AllCarried(old(currentTick), next, old(entries), entries, Nil)
      ensures Distinct(cells[CurrentCell(next)]) && SlotArmed(entries, cells[CurrentCell(next)])
    {
      ghost var book, now := Book(), currentTick;
      EarliestAhead(currentTick, entries, next);
      AdvanceTo(next);
      if now < next { AdvancedAlike(now, next, book.entries, entries); }
      LedgerAlike(book, clock, entries);
      if AllTimely(now, book.entries) {
        ArrivalTimely(now, next, book.entries, entries);
        SlotHoldsExactlyTheDue(next, entries, heads[..], occ[..], cells);
      }
      SlotEntries(entries, heads[..], cells, CurrentCell(next));
    }

    method BareTick()
      requires Valid()
      modifies this`currentTick
      ensures Valid() && currentTick == old(currentTick) + 1
    {
      currentTick := currentTick + 1;
    }

    /**
      One step of the wheel.  Only due entries are fired or moved, everything fired is recorded at
      this clock reading, and a timely wheel has nothing due left unless 64 were handled first.  It
      stays timely unless the only due entries are periodic ones whose instances are in flight.
     */
    method FireStep(next: nat, now: nat, readings: nat -> nat) returns (handled: nat, ghost hi: nat)
      requires Valid() && Earliest(currentTick, entries, Levels, next) && clock.epoch <= now && next <= NowTick(clock, now)
      requires forall k: nat :: now <= readings(k)
      modifies this`entries, this`cells, this`currentTick, this`freeHead, this`free, this`armedCount, this`log,
               this`records, heads, occ
      ensures Valid() && LogGrows(old(log), log, now)
      ensures handled <= 64 && handled <= old(armedCount) && currentTick == TickAfter(next, handled)
      ensures AllDealt(old(currentTick), next, old(entries), entries)
      ensures RecordsMoved(old(records), records, hi) && (hi == now || exists m: nat :: hi == readings(m))
      ensures handled > 0 ==> AnyCounts(next, old(entries), old(records))
      ensures old(AllTimely(currentTick, entries)) ==>
                StepTimely(next, old(entries), old(records), entries, handled)
    {
      handled, hi := FireAt(next, now, readings);
      if handled == 0 { BareTick(); }
    }

    // A fire step up to the point where the tick may move on.
    method FireAt(next: nat, now: nat, readings: nat -> nat) returns (handled: nat, ghost hi: nat)
      requires Valid() && Earliest(currentTick, entries, Levels, next) && clock.epoch <= now && next <= NowTick(clock, now)
      requires forall k: nat :: now <= readings(k)
      modifies this`entries, this`cells, this`currentTick, this`freeHead, this`free, this`armedCount, this`log,
               this`records, heads, occ
      ensures Valid() && LogGrows(old(log), log, now)
      ensures handled <= 64 && handled <= old(armedCount) && currentTick == next
      ensures AllDealt(old(currentTick), next, old(entries), entries)
      ensures RecordsMoved(old(records), records, hi) && (hi == now || exists m: nat :: hi == readings(m))
      ensures handled > 0 ==> AnyCounts(next, old(entries), old(records))
      ensures old(AllTimely(currentTick, entries)) ==>
                StepTimely(next, old(entries), old(records), entries, handled)
    {
      ghost var before, tick := entries, currentTick;
      EarliestAhead(currentTick, entries, next);
      Arrive(next);
      ghost var mid, slot: seq<nat> := Book(), cells[CurrentCell(next)];
      ghost var k: nat;
      handled, k, hi := FireSlot(now, readings);
      FireStepOutcome(tick, now, next, before, mid, Book(), slot, k, handled);
    }

    /** Fires only when the next event has been reached by the clock. */
    method PollFire(now: nat, readings: nat -> nat) returns (fired: bool)
      requires Valid() && clock.epoch <= now
      requires forall k: nat :: now <= readings(k)
      modifies this`entries, this`cells, this`currentTick, this`freeHead, this`free, this`armedCount, this`log,
               this`records, heads, occ
      ensures Valid() && LogGrows(old(log), log, now) && |entries| == |old(entries)|
      ensures forall j | 0 <= j < |entries| && !(IsArmed(old(entries)[j]) && old(entries)[j].deadline <= NowTick(clock, now)) ::
                Alike(entries[j], old(entries)[j])
      ensures !fired ==> entries == old(entries) && currentTick == old(currentTick) && log == old(log)
      ensures !fired && old(AllTimely(currentTick, entries)) ==> NoneDue(NowTick(clock, now), entries) || currentTick > NowTick(clock, now)
      ensures !fired && old(AllTimely(currentTick, entries)) && currentTick <= NowTick(clock, now) ==>
                forall h | h in promised && Live(entries, h) :: now < promised[h] + clock.tick
      ensures fired ==> currentTick <= NowTick(clock, now) + 1
    {
      var next := NextEventTick();
      if next < 0 || next > NowTick(clock, now) {
        if AllTimely(currentTick, entries) {
          NotYetDue(currentTick, entries, next, NowTick(clock, now));
          if NoneDue(NowTick(clock, now), entries) { NobodyIsLate(Book(), clock, now); }
        }
        return false;
      }
      var handled, _ := FireStep(next, now, readings);
      DealtLater(old(currentTick), next, NowTick(clock, now), old(entries), entries);
      return true;
    }

    /** The timer thread finds nothing armed: the wheel restarts at the present, and stays timely. */
    method Restart(now: nat)
      requires Valid() && clock.epoch <= now && Earliest(currentTick, entries, Levels, -1)
      modifies this`currentTick
      ensures Valid() && currentTick == NowTick(clock, now) && AllTimely(currentTick, entries) && Armed(entries) == {}
    {
      currentTick := NowTick(clock, now);
      forall i | 0 <= i < |entries| ensures !IsArmed(entries[i]) {
        if IsArmed(entries[i]) { assert Listed(entries[i], i, cells) && OnLevels(entries[i], Levels); }
      }
    }

    // ---------- periodic tasks ----------

    /** A new record whose first grid point is `first`, armed for the tick that rounds up to. */
    method StartPeriodic(interval: nat, firstDelay: int, clock1: nat, clock2: nat) returns (r: nat)
      requires Valid() && interval > 0 && clock.epoch <= clock1 && clock.epoch <= clock2
      modifies this`entries, this`cells, this`currentTick, this`freeHead, this`free, this`armedCount, this`records, heads, occ
      ensures Valid() && r == |old(records)| && |records| == r + 1 && records[..r] == old(records)
      ensures var rec := records[r];
              && rec.interval == Max(interval, clock.tick) && rec.first == rec.due && !rec.inFlight && !rec.cancelled
              && rec.due == clock1 + if firstDelay < 0 then rec.interval else firstDelay
      ensures armedCount == old(armedCount) + 1 && currentTick == Max(old(currentTick), NowTick(clock, clock2))
      ensures |entries| <= |old(entries)| + 1
      ensures NewlyArmed(old(entries), entries, currentTick, records[r].entry, r, TickFor(clock, records[r].due))
      ensures AllCarried(old(currentTick), currentTick, old(entries), entries, records[r].entry)
      ensures old(AllTimely(currentTick, entries)) && Overrun(old(currentTick), currentTick, old(entries)) == {}
              ==> AllTimely(currentTick, entries)
    {
      r := |records|;
      var step := if interval < clock.tick then clock.tick else interval;
      var due := clock1 + if firstDelay < 0 then step else firstDelay;
      CatchUp(NowTick(clock, clock2));
      ghost var mid := entries;
      var i := InstallPeriodic(step, due);
      CarriedThenKin(old(currentTick), currentTick, old(entries), mid, entries, i);
    }

    method InstallPeriodic(step: nat, due: nat) returns (i: nat)
      requires Valid() && step >= clock.tick
      modifies this`entries, this`cells, this`freeHead, this`free, this`armedCount, this`records, heads, occ
      ensures Valid() && armedCount == old(armedCount) + 1
      ensures records == old(records) + [Record(step, due, i, false, false, 0, 0, due, 0)]
      ensures |old(entries)| <= |entries| <= |old(entries)| + 1
      ensures NewlyArmed(old(entries), entries, currentTick, i, |old(records)|, TickFor(clock, due))
      ensures forall j | 0 <= j < |old(entries)| && j != i :: Kin(entries[j], old(entries)[j])
      ensures old(AllTimely(currentTick, entries)) ==> AllTimely(currentTick, entries)
    {
      ghost var book := Book();
      i := Install(TickFor(clock, due), |records|);
      NotArmedBefore(book, Book(), clock, i);
      records := records + [Record(step, due, i, false, false, 0, 0, due, 0)];
      LedgerStart(book, Book(), clock, i);
      if AllTimely(currentTick, book.entries) { InstallTimely(currentTick, book, Book(), i); }
    }

    method CancelPeriodic(r: nat)
      requires Valid() && r < |records|
      modifies this`entries, this`cells, this`freeHead, this`free, this`armedCount, this`records, heads, occ
      ensures Valid() && records == old(records)[r := old(records)[r].(cancelled := true, entry := Nil)]
      ensures armedCount == old(armedCount) - if old(records)[r].cancelled then 0 else 1
      ensures forall j | 0 <= j < |old(entries)| && j != old(records)[r].entry :: j < |entries| && Kin(entries[j], old(entries)[j])
    {
      var i := records[r].entry;
      assert RecordOk(records[r], clock);
      if i == Nil { return; }
      ghost var book := Book();
      Retire(i, Position(i));
      records := records[r := records[r].(cancelled := true, entry := Nil)];
      LedgerCancel(book, Book(), clock, r);
    }

    // The end of an instance; the wake of a joiner is not part of this model.
    method FinishPeriodic(r: nat, stop: bool)
      requires Valid() && r < |records|
      modifies this`entries, this`cells, this`freeHead, this`free, this`armedCount, this`records, heads, occ
      ensures Valid() && |records| == |old(records)| && !records[r].inFlight && (stop ==> records[r].cancelled)
      ensures forall q | 0 <= q < |records| && q != r :: records[q] == old(records)[q]
    {
      if stop { CancelPeriodic(r); }
      ghost var book := Book();
      records := records[r := records[r].(inFlight := false)];
      LedgerFinish(book, clock, r);
    }
  }

  // An entry of level 0 due at tick 5, left where it is by an advance from tick 0 to tick 6.
  lemma OverrunEntry(was: Entry, e: Entry)
    requires PlacedAt(0, was) && was.deadline == 5 && Carried(0, 6, was, e)
    ensures Kin(e, was) && EntryVisit(6, e) == 261 && !EntryTimely(6, e)
  {
    assert was.level == 0 && was.slot == 5;
    assert Visit(6, 0, 5) == 261;
  }

  /**
    Arming can delay an entry: on a new wheel with an entry due at tick 5, an Arm whose clock reads
    tick 6 advances past it, and the wheel next looks at its slot in tick 261, 256 ticks late.
   */
  method ArmOverruns(w: Wheel) returns (early: Handle, late: Handle)
    requires w.Valid() && w.clock == UNIT && w.currentTick == 0 && w.entries == []
    modifies w, w.heads, w.occ
    ensures w.Valid() && w.currentTick == 6 && w.log == old(w.log) && early != late
    ensures Live(w.entries, early) && Live(w.entries, late)
    ensures w.entries[early.index].deadline == 5 && EntryVisit(6, w.entries[early.index]) == 261
  {
    UnitTicks(0);
    hide WheelOk, LedgerOk;
    UnitTicks(5);
    UnitTicks(6);
    var armed: bool;
    early, armed := w.Arm(5, 0, 0, true);
    ghost var was, i := w.entries[early.index], early.index;
    late, armed := w.Arm(100, 6, 6, true);
    assert late.index != i;
    OverrunEntry(was, w.entries[i]);
  }

  // A one-shot due at tick 300, armed in tick 0, and a periodic entry due before it.
  predicate Waiting(entries: seq<Entry>, due: nat) {
    && |entries| == 2
    && entries[0].deadline == 300 && entries[0].record == Nil && entries[0].level == 1 && entries[0].slot == 1
    && entries[1].deadline == due && entries[1].record == 0 && entries[1].level == 0 && entries[1].slot == due
  }

  lemma WaitingEarliest(now: nat, entries: seq<Entry>, due: nat)
    requires Waiting(entries, due) && ((due == 155 && now == 0) || (due == 255 && now == 155))
    ensures AllTimely(now, entries) && Earliest(now, entries, Levels, due)
  {
    assert Visit(now, 0, due) == due && Visit(now, 1, 1) == 256;
    assert EntryVisit(now, entries[0]) == 256 && EntryVisit(now, entries[1]) == due;
    assert OnLevels(entries[1], Levels);
  }

  // A step that comes before tick 256 leaves the one-shot where it is.
  lemma WaitingStays(now: nat, next: nat, was: Entry, e: Entry)
    requires now < next < 256 && was.deadline == 300 && was.level == 1 && was.slot == 1 && StepDeals(now, next, was, e)
    ensures Kin(e, was)
  {
  }

  // The periodic entry launched and moved on to its next grid point.
  lemma LaunchedOn(before: seq<Entry>, entries: seq<Entry>, was: Record, record: Record)
    requires Waiting(before, 155) && AllDealt(0, 155, before, entries) && NoneDue(155, entries)
    requires was.interval == 100 && was.due == 155 && (record == was || MovedOn(was, record, 155))
    requires RecordOk(was, UNIT) && RecordOk(record, UNIT)
    requires IsArmed(entries[1]) && entries[1].record == 0 ==> entries[1].deadline == record.due
    ensures Waiting(entries, 255) && Kin(entries[0], before[0]) && record.inFlight
  {
    WaitingStays(0, 155, before[0], entries[0]);
    assert StepDeals(0, 155, before[1], entries[1]);
    if record != was {
      assert record.due - 155 ==
             (record.launches + record.totalSkipped - (was.launches + was.totalSkipped)) * 100;
    }
  }

  lemma NothingArmed(l: Ledger)
    requires LedgerOk(l, UNIT) && l.entries == []
    ensures l.armedCount == 0
  {
    assert Armed(l.entries) == {};
  }

  method ArmBoth(w: Wheel) returns (late: Handle)
    requires w.Valid() && w.clock == UNIT && w.currentTick == 0 && w.entries == [] && w.records == []
    modifies w, w.heads, w.occ
    ensures w.Valid() && w.currentTick == 0 && Waiting(w.entries, 155) && late.index == 0 && Live(w.entries, late)
    ensures |w.records| == 1 && w.records[0].interval == 100 && w.records[0].due == 155 && !w.records[0].inFlight
    ensures w.armedCount == 2 && late in w.issued
  {
    hide WheelOk, LedgerOk;
    NothingArmed(w.Book());
    UnitTicks(0);
    UnitTicks(155);
    UnitTicks(300);
    var armed: bool;
    late, armed := w.Arm(300, 0, 0, true);
    assert late.index == 0 && w.entries[0].level == 1 && w.entries[0].slot == 1 by { assert Placement(0, 300) == (1, 1); }
    var r := w.StartPeriodic(100, 155, 0, 0);
    assert w.records[0].entry == 1 && Placement(0, 155) == (0, 155);
  }

  // The wheel's books give a periodic entry its record's deadline.
  lemma PeriodicDeadline(l: Ledger, i: nat)
    requires LedgerOk(l, UNIT) && i < |l.entries| && IsArmed(l.entries[i]) && l.entries[i].record == 0
    ensures |l.records| > 0 && l.entries[i].deadline == l.records[0].due && RecordOk(l.records[0], UNIT)
  {
    UnitTicks(l.records[0].due);
  }

  method LaunchFirst(w: Wheel)
    requires w.Valid() && w.clock == UNIT && w.currentTick == 0 && Waiting(w.entries, 155) && w.armedCount == 2
    requires |w.records| == 1 && w.records[0].interval == 100 && w.records[0].due == 155 && !w.records[0].inFlight
    modifies w, w.heads, w.occ
    ensures w.Valid() && w.currentTick == 155 && Waiting(w.entries, 255) && Kin(w.entries[0], old(w.entries)[0])
    ensures |w.records| == 1 && w.records[0].inFlight && w.issued == old(w.issued)
  {
    hide WheelOk, LedgerOk;
    UnitTicks(155);
    WaitingEarliest(0, w.entries, 155);
    ghost var before, was := w.entries, w.records[0];
    PeriodicDeadline(w.Book(), 1);
    assert Counts(155, before[1], w.records);
    var handled, hi := w.FireStep(155, 155, _ => 155);
    if IsArmed(w.entries[1]) && w.entries[1].record == 0 { PeriodicDeadline(w.Book(), 1); }
    LaunchedOn(before, w.entries, was, w.records[0]);
  }

  lemma StillArmed(l: Ledger, h: Handle)
    requires LedgerOk(l, UNIT) && h in l.issued && Live(l.entries, h)
    ensures !Settled(l.log, h)
  {
  }

  method IdleTick(w: Wheel)
    requires w.Valid() && w.clock == UNIT && w.currentTick == 155 && Waiting(w.entries, 255)
    requires |w.records| == 1 && w.records[0].inFlight
    modifies w, w.heads, w.occ
    ensures w.Valid() && w.currentTick == 256 && |w.entries| == 2 && Kin(w.entries[0], old(w.entries)[0])
    ensures w.issued == old(w.issued)
  {
    hide WheelOk, LedgerOk;
    UnitTicks(255);
    WaitingEarliest(155, w.entries, 255);
    assert !AnyCounts(255, w.entries, w.records);
    ghost var before := w.entries;
    var handled, _ := w.FireStep(255, 255, _ => 255);
    WaitingStays(155, 255, before[0], w.entries[0]);
  }

  /**
    The wheel's own way to a stranded entry.  The periodic entry fires in tick 155 and its instance
    runs on; in tick 255 it is the only one due and launches nothing, so the wheel enters tick 256
    without cascading, and next looks at the one-shot due at tick 300 in tick 65792.
   */
  method BareTickRun(w: Wheel) returns (late: Handle)
    requires w.Valid() && w.clock == UNIT && w.currentTick == 0 && w.entries == [] && w.records == []
    modifies w, w.heads, w.occ
    ensures w.Valid() && w.currentTick == 256 && Live(w.entries, late) && !Settled(w.log, late)
    ensures w.entries[late.index].deadline == 300 && EntryVisit(256, w.entries[late.index]) == 65792
    ensures !EntryTimely(256, w.entries[late.index])
  {
    hide WheelOk, LedgerOk;
    late := ArmBoth(w);
    LaunchFirst(w);
    IdleTick(w);
    StillArmed(w.Book(), late);
    assert Visit(256, 1, 1) == 65792;
  }
}
