/**
  The wheel's slot lists (src/Timer.cpp:162-177, 247-271): doubly linked through the entry
  table, one list a slot.  A cell is a slot of a level, `256 * level + slot`; `cells[c]` is the
  sequence of entries that the links of cell c spell.
 */
module TimerLists {
  import opened WheelTicks

  const Nil: int := -1
  const CellCount: nat := 1024

  datatype Entry = Entry(
    deadline: nat,
    record: int,                   // the periodic record, or Nil for a one-shot
    prev: int,
    next: int,
    generation: nat,
    nextFree: nat,
    level: int,                    // -1: not linked
    slot: nat)

  // Everything but the links.
  predicate Kin(a: Entry, b: Entry) {
    && a.deadline == b.deadline && a.record == b.record && a.generation == b.generation
    && a.nextFree == b.nextFree && a.level == b.level && a.slot == b.slot
  }

  predicate InCell(e: Entry, c: nat) {
    e.level == c / Slots && e.slot == c % Slots
  }

  function Cell(level: nat, slot: nat): (c: nat)
    requires level < Levels && slot < Slots
    ensures c < CellCount && c / Slots == level && c % Slots == slot
  {
    Slots * level + slot
  }

  predicate Distinct(xs: seq<nat>) {
    forall i, j | 0 <= i < j < |xs| :: xs[i] != xs[j]
  }

  function At(xs: seq<nat>, k: int): int {
    if 0 <= k < |xs| then xs[k] else Nil
  }

  predicate NodeOk(entries: seq<Entry>, xs: seq<nat>, c: nat, k: nat)
    requires k < |xs|
  {
    && xs[k] < |entries| && InCell(entries[xs[k]], c)
    && entries[xs[k]].next == At(xs, k + 1) && entries[xs[k]].prev == At(xs, k - 1)
  }

  // The list of cell c.
  predicate ListOk(entries: seq<Entry>, head: int, xs: seq<nat>, c: nat) {
    && Distinct(xs) && head == At(xs, 0)
    && forall k | 0 <= k < |xs| :: NodeOk(entries, xs, c, k)
  }

  predicate RestNode(entries: seq<Entry>, rest: seq<nat>, k: nat)
    requires k < |rest|
  {
    rest[k] < |entries| && entries[rest[k]].next == At(rest, k + 1)
  }

  // Entries taken off a cell that a cascade still has to place again; only `next` is relied on.
  predicate RestOk(entries: seq<Entry>, rest: seq<nat>) {
    && Distinct(rest)
    && forall k | 0 <= k < |rest| :: RestNode(entries, rest, k)
  }

  predicate ListsOk(entries: seq<Entry>, heads: seq<int>, cells: seq<seq<nat>>) {
    && |heads| == CellCount && |cells| == CellCount
    && forall c | 0 <= c < CellCount :: ListOk(entries, heads[c], cells[c], c)
  }

  predicate Listed(e: Entry, i: nat, cells: seq<seq<nat>>)
    requires |cells| == CellCount
  {
    0 <= e.level < Levels && e.slot < Slots && i in cells[Cell(e.level, e.slot)]
  }

  // Exactly the entries with a level are on a list, or about to be placed again.
  predicate Complete(entries: seq<Entry>, cells: seq<seq<nat>>, rest: seq<nat>)
    requires |cells| == CellCount
  {
    forall i | 0 <= i < |entries| && entries[i].level != -1 && i !in rest :: Listed(entries[i], i, cells)
  }

  // ---------- Link ----------

  function LinkEntries(entries: seq<Entry>, i: nat, level: nat, slot: nat, head: int): seq<Entry>
    requires i < |entries|
  {
    var linked := entries[i := entries[i].(level := level, slot := slot, prev := Nil, next := head)];
    if 0 <= head < |entries| then linked[head := linked[head].(prev := i)] else linked
  }

  lemma LinkList(entries: seq<Entry>, head: int, xs: seq<nat>, i: nat, level: nat, slot: nat)
    requires level < Levels && slot < Slots && i < |entries| && i !in xs
    requires ListOk(entries, head, xs, Cell(level, slot))
    ensures ListOk(LinkEntries(entries, i, level, slot, head), i, [i] + xs, Cell(level, slot))
  {
    var c := Cell(level, slot);
    var entries' := LinkEntries(entries, i, level, slot, head);
    var ys := [i] + xs;
    assert head >= 0 ==> NodeOk(entries, xs, c, 0);
    forall k | 0 <= k < |ys| ensures NodeOk(entries', ys, c, k) {
      if k > 0 { assert NodeOk(entries, xs, c, k - 1); }
    }
  }

  lemma LinkOther(entries: seq<Entry>, head: int, xs: seq<nat>, i: nat, level: nat, slot: nat,
                  head': int, ys: seq<nat>, d: nat)
    requires level < Levels && slot < Slots && i < |entries| && i !in ys && d != Cell(level, slot)
    requires ListOk(entries, head, xs, Cell(level, slot)) && ListOk(entries, head', ys, d)
    ensures ListOk(LinkEntries(entries, i, level, slot, head), head', ys, d)
  {
    var c := Cell(level, slot);
    var entries' := LinkEntries(entries, i, level, slot, head);
    assert head >= 0 ==> NodeOk(entries, xs, c, 0);
    forall k | 0 <= k < |ys| ensures NodeOk(entries', ys, d, k) {
      assert NodeOk(entries, ys, d, k);
      assert entries'[ys[k]] == entries[ys[k]];
    }
  }

  lemma LinkKin(entries: seq<Entry>, heads: seq<int>, cells: seq<seq<nat>>, i: nat, level: nat, slot: nat)
    requires ListsOk(entries, heads, cells) && i < |entries| && level < Levels && slot < Slots
    requires forall c | 0 <= c < CellCount :: i !in cells[c]
    ensures var entries' := LinkEntries(entries, i, level, slot, heads[Cell(level, slot)]);
            && |entries'| == |entries|
            && (forall j | 0 <= j < |entries| && j != i :: Kin(entries'[j], entries[j]))
            && Kin(entries'[i], entries[i].(level := level, slot := slot))
            && (forall j | 0 <= j < |entries| && (forall d | 0 <= d < CellCount :: j !in cells[d]) && j != i ::
                  entries'[j] == entries[j])
  {
    var c := Cell(level, slot);
    assert ListOk(entries, heads[c], cells[c], c);
    if heads[c] >= 0 { assert NodeOk(entries, cells[c], c, 0) && cells[c][0] in cells[c]; }
  }

  // ---------- Unlink ----------

  function UnlinkEntries(entries: seq<Entry>, i: nat): seq<Entry>
    requires i < |entries|
  {
    var Entry(_, _, prev, next, _, _, _, _) := entries[i];
    var a := if 0 <= prev < |entries| then entries[prev := entries[prev].(next := next)] else entries;
    var b := if 0 <= next < |entries| then a[next := a[next].(prev := prev)] else a;
    b[i := b[i].(prev := Nil, next := Nil, level := -1)]
  }

  function Drop(xs: seq<nat>, k: nat): seq<nat>
    requires k < |xs|
  {
    xs[..k] + xs[k + 1..]
  }

  lemma DropAt(xs: seq<nat>, k: nat, j: nat)
    requires k < |xs| && j < |xs| - 1
    ensures Drop(xs, k)[j] == xs[if j < k then j else j + 1]
  {
  }

  lemma UnlinkList(entries: seq<Entry>, head: int, xs: seq<nat>, c: nat, k: nat)
    requires ListOk(entries, head, xs, c) && k < |xs|
    ensures NodeOk(entries, xs, c, k)
    ensures var head' := if entries[xs[k]].prev == Nil then entries[xs[k]].next else head;
            ListOk(UnlinkEntries(entries, xs[k]), head', Drop(xs, k), c)
  {
    assert NodeOk(entries, xs, c, k);
    var entries' := UnlinkEntries(entries, xs[k]);
    var ys := Drop(xs, k);
    forall j | 0 <= j < |ys| ensures NodeOk(entries', ys, c, j) { UnlinkNode(entries, head, xs, c, k, j); }
    if k == 0 { assert NodeOk(entries, xs, c, 0); }
    assert NodeOk(entries, xs, c, k);
  }

  lemma UnlinkNode(entries: seq<Entry>, head: int, xs: seq<nat>, c: nat, k: nat, j: nat)
    requires ListOk(entries, head, xs, c) && k < |xs| && j < |xs| - 1
    ensures NodeOk(entries, xs, c, k) && NodeOk(UnlinkEntries(entries, xs[k]), Drop(xs, k), c, j)
  {
    var ys := Drop(xs, k);
    var from := if j < k then j else j + 1;
    assert NodeOk(entries, xs, c, k) && NodeOk(entries, xs, c, from);
    assert k > 0 ==> NodeOk(entries, xs, c, k - 1);
    assert k + 1 < |xs| ==> NodeOk(entries, xs, c, k + 1);
    DropAt(xs, k, j);
    assert At(ys, j + 1) == At(xs, if j + 1 < k then j + 1 else j + 2);
    assert At(ys, j - 1) == At(xs, if j - 1 < k then j - 1 else j);
  }

  lemma UnlinkOther(entries: seq<Entry>, head: int, xs: seq<nat>, c: nat, k: nat, head': int, ys: seq<nat>, d: nat)
    requires ListOk(entries, head, xs, c) && k < |xs| && ListOk(entries, head', ys, d) && c != d
    ensures NodeOk(entries, xs, c, k)
    ensures ListOk(UnlinkEntries(entries, xs[k]), head', ys, d)
  {
    assert NodeOk(entries, xs, c, k);
    var entries' := UnlinkEntries(entries, xs[k]);
    assert k > 0 ==> NodeOk(entries, xs, c, k - 1);
    assert k + 1 < |xs| ==> NodeOk(entries, xs, c, k + 1);
    forall j | 0 <= j < |ys| ensures NodeOk(entries', ys, d, j) {
      assert NodeOk(entries, ys, d, j);
      assert entries'[ys[j]] == entries[ys[j]];
    }
  }

  lemma UnlinkKin(entries: seq<Entry>, head: int, xs: seq<nat>, c: nat, k: nat)
    requires ListOk(entries, head, xs, c) && k < |xs|
    ensures xs[k] < |entries|
    ensures var entries' := UnlinkEntries(entries, xs[k]);
            && |entries'| == |entries|
            && (forall j | 0 <= j < |entries| && j != xs[k] :: Kin(entries'[j], entries[j]))
            && Kin(entries'[xs[k]], entries[xs[k]].(level := -1))
  {
    assert NodeOk(entries, xs, c, k);
    assert k > 0 ==> NodeOk(entries, xs, c, k - 1);
    assert k + 1 < |xs| ==> NodeOk(entries, xs, c, k + 1);
  }
}
