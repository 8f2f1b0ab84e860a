/**
  The arithmetic of the timing wheel (src/Timer.cpp:130-139, 273-286, 324-371): four levels of
  256 slots; a slot of level l spans Granularity(l) ticks.  Ticks are unbounded naturals.
 */
module WheelTicks {
  import opened Division

  const Levels: nat := 4
  const Slots: nat := 256
  const MaxTicks: nat := 0x1_0000_0000

  function Granularity(level: nat): (g: nat)
    requires level <= Levels
    ensures g > 0
  {
    match level
    case 0 => 1
    case 1 => 0x100
    case 2 => 0x1_0000
    case 3 => 0x100_0000
    case _ => 0x1_0000_0000
  }

  lemma GranularityGrows(level: nat)
    requires level < Levels
    ensures Granularity(level + 1) == Slots * Granularity(level)
  {
  }

  function SlotOf(round: nat): nat {
    round % Slots
  }

  // The slot of level l in which round r falls is SlotOf(r); round r begins at tick r * Granularity(l).
  function FirstRound(now: nat, level: nat): nat
    requires level < Levels
  {
    if level == 0 then now else now / Granularity(level) + 1
  }

  // The first round, from the current tick on, in which the wheel looks at the slot.
  function Round(now: nat, level: nat, slot: nat): (r: nat)
    requires level < Levels
    ensures FirstRound(now, level) <= r < FirstRound(now, level) + Slots
    ensures slot < Slots ==> r % Slots == slot
  {
    var first := FirstRound(now, level);
    first + (slot - first) % Slots
  }

  function Visit(now: nat, level: nat, slot: nat): nat
    requires level < Levels
  {
    Round(now, level, slot) * Granularity(level)
  }

  function Max(a: nat, b: nat): nat {
    if a < b then b else a
  }

  /**
    The strong wheel invariant for one entry.  On level 0 the slot is visited at the deadline
    itself, or now when the deadline has passed; above, the visit begins the span the deadline
    lies in, except that the top level may look at a far deadline early.
   */
  predicate Timely(now: nat, deadline: nat, level: nat, slot: nat) {
    && level < Levels && slot < Slots
    && var visit := Visit(now, level, slot);
       if level == 0 then visit == Max(deadline, now)
       else visit <= deadline && (level < Levels - 1 ==> deadline < visit + Granularity(level))
  }

  // Where Place puts a deadline.
  function Placement(now: nat, deadline: nat): (nat, nat) {
    if deadline <= now then (0, now % Slots)
    else if deadline - now < Granularity(1) then (0, deadline % Slots)
    else if deadline - now < Granularity(2) then (1, deadline / Granularity(1) % Slots)
    else if deadline - now < Granularity(3) then (2, deadline / Granularity(2) % Slots)
    else if deadline - now < Granularity(4) then (3, deadline / Granularity(3) % Slots)
    else (3, (now + MaxTicks - 1) / Granularity(3) % Slots)
  }

  // ---------- lemmas ----------

  lemma Residues(a: nat, b: nat)
    requires a % Slots == b % Slots && a <= b < a + Slots
    ensures a == b
  {
  }

  lemma RoundIs(now: nat, level: nat, r: nat)
    requires level < Levels && FirstRound(now, level) <= r < FirstRound(now, level) + Slots
    ensures Round(now, level, r % Slots) == r
  {
    var r' := Round(now, level, r % Slots);
    if r' <= r { Residues(r', r); } else { Residues(r, r'); }
  }

  // Place obeys the invariant.
  lemma PlacementTimely(now: nat, deadline: nat)
    ensures var (level, slot) := Placement(now, deadline); Timely(now, deadline, level, slot)
  {
    var delta := deadline - now;
    if delta <= 0 { RoundIs(now, 0, now); }
    else if delta < Granularity(1) { RoundIs(now, 0, deadline); }
    else if delta < Granularity(2) { SpanTimely(now, deadline, 1); }
    else if delta < Granularity(3) { SpanTimely(now, deadline, 2); }
    else if delta < Granularity(4) { SpanTimely(now, deadline, 3); }
    else {
      RoundIs(now, 3, (now + MaxTicks - 1) / Granularity(3));
    }
  }

  lemma SpanTimely(now: nat, deadline: nat, level: nat)
    requires 1 <= level < Levels && now + Granularity(level) <= deadline < now + Granularity(level + 1)
    ensures Timely(now, deadline, level, deadline / Granularity(level) % Slots)
  {
    var g := Granularity(level);
    var r := deadline / g;
    DivBounds(now, g);
    DivBounds(deadline, g);
    DivAtLeast(deadline, g, now / g + 1);
    DivAtLeast(deadline, g, now / g + 257);
    RoundIs(now, level, r);
  }

  // An entry whose round is still ahead is as well placed at the new tick as it was.
  lemma StaysTimely(now: nat, target: nat, deadline: nat, level: nat, slot: nat)
    requires Timely(now, deadline, level, slot) && 1 <= level && now <= target
    requires target / Granularity(level) < Round(now, level, slot)
    ensures Timely(target, deadline, level, slot) && Visit(target, level, slot) == Visit(now, level, slot)
  {
    var g := Granularity(level);
    var r := Round(now, level, slot);
    DivBounds(now, g);
    DivAtLeast(target, g, now / g);
    RoundIs(target, level, r);
  }

  lemma StaysTimelyAtBase(now: nat, target: nat, deadline: nat, slot: nat)
    requires Timely(now, deadline, 0, slot) && now <= target <= Visit(now, 0, slot)
    ensures Timely(target, deadline, 0, slot)
  {
    if target > now { RoundIs(target, 0, deadline); }
  }

  // Left in its slot of level 0, an entry stays timely unless the advance overruns its deadline.
  lemma BaseTimelyIff(now: nat, target: nat, deadline: nat, slot: nat)
    requires Timely(now, deadline, 0, slot) && now < target
    ensures Timely(target, deadline, 0, slot) <==> target <= deadline || slot == target % Slots
  {
    RoundIs(target, 0, target);
    if target <= deadline {
      StaysTimelyAtBase(now, target, deadline, slot);
    } else if slot != target % Slots {
      assert Visit(target, 0, slot) != target;
    }
  }

  // The slots whose round an advance passes are those that AdvanceTo cascades.
  predicate Passed(now: nat, target: nat, level: nat, slot: nat) {
    && 1 <= level < Levels && slot < Slots
    && var start, to := now / Granularity(level), target / Granularity(level);
       to - start >= Slots || exists r :: start < r <= to && SlotOf(r) == slot
  }

  lemma PassedIffRoundDue(now: nat, target: nat, level: nat, slot: nat)
    requires 1 <= level < Levels && slot < Slots && now <= target
    ensures Passed(now, target, level, slot) <==> Round(now, level, slot) <= target / Granularity(level)
  {
    var start, to := now / Granularity(level), target / Granularity(level);
    var r := Round(now, level, slot);
    assert SlotOf(r) == slot;
    if Passed(now, target, level, slot) && to - start < Slots {
      var q :| start < q <= to && SlotOf(q) == slot;
      RoundIs(now, level, q);
    }
  }

  // The loop over levels may stop at the first one whose round did not change.
  lemma HigherLevelsUnpassed(now: nat, target: nat, level: nat, higher: nat)
    requires 1 <= level <= higher < Levels && now <= target
    requires now / Granularity(level) == target / Granularity(level)
    ensures now / Granularity(higher) == target / Granularity(higher)
    decreases higher
  {
    if level < higher {
      HigherLevelsUnpassed(now, target, level, higher - 1);
      GranularityGrows(higher - 1);
      var q := target / Granularity(higher);
      Regroup(q, Granularity(higher - 1));
      CoarserUnpassed(now, target, Granularity(higher - 1), Granularity(higher), q * Slots);
    }
  }

  lemma Regroup(q: nat, g: nat)
    ensures q * (Slots * g) == (q * Slots) * g
  {
  }

  // Granularity h divides coarser than g: the start of the target's round of h is also the start of a round p of g.
  lemma CoarserUnpassed(now: nat, target: nat, g: nat, h: nat, p: nat)
    requires g > 0 && h > 0 && target / h * h == p * g && now <= target && now / g == target / g
    ensures now / h == target / h
  {
    var q := target / h;
    DivAtLeast(target, h, q);
    DivAtLeast(target, g, p);
    DivAtLeast(now, g, p);
    DivAtLeast(now, h, q);
    DivMonotone(now, target, h);
  }

  /**
    Every entry after an advance, whatever the target: above level 0 it is either passed, and
    placed again, or still timely.
   */
  lemma AdvanceTimely(now: nat, target: nat, deadline: nat, level: nat, slot: nat)
    requires Timely(now, deadline, level, slot) && now <= target && 1 <= level
    requires !Passed(now, target, level, slot)
    ensures Timely(target, deadline, level, slot)
  {
    PassedIffRoundDue(now, target, level, slot);
    StaysTimely(now, target, deadline, level, slot);
  }

  lemma VisitAhead(now: nat, level: nat, slot: nat)
    requires 1 <= level < Levels
    ensures Visit(now, level, slot) > now
  {
    var g := Granularity(level);
    DivBounds(now, g);
    DivAtLeast(now, g, Round(now, level, slot));
  }

  /** Among timely entries, exactly the due ones are in the current slot of level 0. */
  lemma DueIffInSlot(now: nat, deadline: nat, level: nat, slot: nat)
    requires Timely(now, deadline, level, slot)
    ensures deadline <= now <==> level == 0 && slot == now % Slots
  {
    RoundIs(now, 0, now);
    if level > 0 { VisitAhead(now, level, slot); }
    if level == 0 { RoundIs(now, 0, Visit(now, 0, slot)); }
  }

  /**
    A step of one tick without cascading keeps an entry timely exactly when the entry is not
    overdue on level 0 and the new tick does not begin the round of its slot, unless the deadline
    lies a whole turn of the top level further on.
   */
  lemma BareTickIff(now: nat, deadline: nat, level: nat, slot: nat)
    requires Timely(now, deadline, level, slot)
    ensures Timely(now + 1, deadline, level, slot) <==>
            if level == 0 then now < deadline
            else Visit(now, level, slot) != now + 1 || now + 1 + Slots * Granularity(level) <= deadline
  {
    if level == 0 { BareTickAtBase(now, deadline, slot); }
    else if Visit(now, level, slot) != now + 1 {
      VisitAhead(now, level, slot);
      DivAtLeast(now + 1, Granularity(level), Round(now, level, slot));
      StaysTimely(now, now + 1, deadline, level, slot);
    } else {
      MissedRound(now, level, slot);
      GranularityGrows(level);
    }
  }

  lemma SameSlotNextTurn(r: nat)
    ensures (r + Slots) % Slots == r % Slots
  {
  }

  lemma BareTickAtBase(now: nat, deadline: nat, slot: nat)
    requires Timely(now, deadline, 0, slot)
    ensures Timely(now + 1, deadline, 0, slot) <==> now < deadline
  {
    if deadline <= now {
      RoundIs(now, 0, now);
      SameSlotNextTurn(now);
      RoundIs(now + 1, 0, now + Slots);
      assert Round(now + 1, 0, slot) == now + Slots;
    } else {
      StaysTimelyAtBase(now, now + 1, deadline, slot);
    }
  }

  // A slot whose round begins at the new tick is next looked at a whole turn later.
  lemma MissedRound(now: nat, level: nat, slot: nat)
    requires 1 <= level < Levels && slot < Slots && Visit(now, level, slot) == now + 1
    ensures Visit(now + 1, level, slot) == now + 1 + Slots * Granularity(level)
  {
    var g := Granularity(level);
    var r := Round(now, level, slot);
    DivAtLeast(now + 1, g, r);
    DivAtLeast(now + 1, g, r + 1);
    SameSlotNextTurn(r);
    RoundIs(now + 1, level, r + Slots);
    assert (r + Slots) * g == r * g + Slots * g;
  }
}
