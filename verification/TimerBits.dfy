/**
  The occupancy bitmap (src/Timer.cpp:222-245): four 64-bit words a level.  A word is the set
  of the positions of its one bits; cell c's bit is bit c % 64 of word c / 64.
 */
module TimerBits {
  import opened WheelTicks
  import opened TimerLists

  const WordBits: nat := 64
  const Words: nat := 4             // words of a level

  type Word = set<nat>

  predicate WordsOk(occ: seq<Word>) {
    |occ| == Levels * Words && forall w, b | 0 <= w < |occ| && b in occ[w] :: b < WordBits
  }

  predicate Bit(occ: seq<Word>, c: nat)
    requires |occ| == Levels * Words && c < CellCount
  {
    c % WordBits in occ[c / WordBits]
  }

  // A bit is set exactly when the cell has a list.
  predicate OccOk(occ: seq<Word>, heads: seq<int>) {
    && WordsOk(occ) && |heads| == CellCount
    && forall c | 0 <= c < CellCount :: Bit(occ, c) <==> heads[c] != Nil
  }

  function Mark(occ: seq<Word>, c: nat, on: bool): seq<Word>
    requires |occ| == Levels * Words && c < CellCount
  {
    var w := c / WordBits;
    occ[w := if on then occ[w] + {c % WordBits} else occ[w] - {c % WordBits}]
  }

  lemma MarkKeeps(occ: seq<Word>, heads: seq<int>, c: nat, head: int)
    requires OccOk(occ, heads) && c < CellCount
    ensures OccOk(Mark(occ, c, head != Nil), heads[c := head])
  {
    var occ' := Mark(occ, c, head != Nil);
    forall d | 0 <= d < CellCount ensures Bit(occ', d) <==> heads[c := head][d] != Nil {
      assert Bit(occ, d) <==> heads[d] != Nil;
      if d / WordBits == c / WordBits && d % WordBits == c % WordBits { assert d == c; }
    }
  }

  // CountTrailingZeros64 of a word with no one bit below k.
  function TrailingZeros(w: Word, k: nat): (b: nat)
    requires k <= WordBits && w != {} && (forall x | x in w :: k <= x < WordBits)
    ensures b in w && forall x | x in w :: b <= x
    decreases WordBits - k
  {
    if k in w then k else
      var x :| x in w; TrailingZeros(w, k + 1)
  }

  // How far ahead of `from` the wheel finds the slot.
  function Ahead(from: nat, slot: nat): nat {
    (slot - from) % Slots
  }

  // Bit b of the j-th word after the one that holds `from`.
  lemma AheadInWord(from: nat, j: nat, b: nat)
    requires from < Slots && j <= Words && b < WordBits
    requires j == 0 ==> b >= from % WordBits
    requires j == Words ==> b < from % WordBits
    ensures Ahead(from, WordBits * ((from / WordBits + j) % Words) + b) == WordBits * j + b - from % WordBits
  {
    var n := from / WordBits;
    var slot := WordBits * ((n + j) % Words) + b;
    assert from == WordBits * n + from % WordBits;
    assert (n + j) % Words == if n + j < Words then n + j else if n + j < 2 * Words then n + j - Words else n + j - 2 * Words;
  }

  // The slot is occupied and no occupied slot of the level is nearer.
  predicate Nearest(occ: seq<Word>, level: nat, from: nat, slot: nat)
    requires |occ| == Levels * Words && level < Levels
  {
    && slot < Slots && Bit(occ, Cell(level, slot))
    && forall s | 0 <= s < Slots && Bit(occ, Cell(level, s)) :: Ahead(from, slot) <= Ahead(from, s)
  }

  predicate LevelClear(occ: seq<Word>, level: nat)
    requires |occ| == Levels * Words && level < Levels
  {
    forall s | 0 <= s < Slots :: !Bit(occ, Cell(level, s))
  }

  // The part of the j-th word after `from` that the search looks at.
  function Window(occ: seq<Word>, level: nat, from: nat, j: nat): Word
    requires |occ| == Levels * Words && level < Levels && from < Slots
  {
    var w := occ[Words * level + (from / WordBits + j) % Words];
    if j == 0 then set b | b in w && from % WordBits <= b
    else if j < Words then w
    else set b | b in w && b < from % WordBits
  }

  // Every occupied slot shows in one of the five windows.
  lemma WindowOf(occ: seq<Word>, level: nat, from: nat, s: nat) returns (j: nat, b: nat)
    requires WordsOk(occ) && level < Levels && from < Slots && s < Slots && Bit(occ, Cell(level, s))
    ensures j <= Words && b in Window(occ, level, from, j)
    ensures s == WordBits * ((from / WordBits + j) % Words) + b
  {
    b := s % WordBits;
    var c := Cell(level, s);
    assert c / WordBits == Words * level + s / WordBits && c % WordBits == b;
    j := (s / WordBits - from / WordBits) % Words;
    assert (from / WordBits + j) % Words == s / WordBits;
    if j == 0 && b < from % WordBits {
      j := Words;
      assert (from / WordBits + j) % Words == from / WordBits;
    }
  }

  lemma WindowIsNearest(occ: seq<Word>, level: nat, from: nat, j: nat, b: nat)
    requires WordsOk(occ) && level < Levels && from < Slots && j <= Words
    requires forall i | 0 <= i < j :: Window(occ, level, from, i) == {}
    requires b in Window(occ, level, from, j) && forall x | x in Window(occ, level, from, j) :: b <= x
    ensures Nearest(occ, level, from, WordBits * ((from / WordBits + j) % Words) + b)
  {
    var slot := WordBits * ((from / WordBits + j) % Words) + b;
    var c := Cell(level, slot);
    assert c / WordBits == Words * level + (from / WordBits + j) % Words && c % WordBits == b;
    AheadInWord(from, j, b);
    forall s | 0 <= s < Slots && Bit(occ, Cell(level, s)) ensures Ahead(from, slot) <= Ahead(from, s) {
      var i, x := WindowOf(occ, level, from, s);
      assert Window(occ, level, from, i) != {};
      AheadInWord(from, i, x);
    }
  }

  lemma WindowsClear(occ: seq<Word>, level: nat, from: nat)
    requires WordsOk(occ) && level < Levels && from < Slots
    requires forall i | 0 <= i <= Words :: Window(occ, level, from, i) == {}
    ensures LevelClear(occ, level)
  {
    forall s | 0 <= s < Slots ensures !Bit(occ, Cell(level, s)) {
      if Bit(occ, Cell(level, s)) {
        var i, b := WindowOf(occ, level, from, s);
      }
    }
  }

  /** The nearest occupied slot from `from` on, cyclically; Slots when the level is empty. */
  method NextOccupied(occ: array<Word>, level: nat, from: nat) returns (slot: nat)
    requires WordsOk(occ[..]) && level < Levels && from < Slots
    ensures slot == Slots ==> LevelClear(occ[..], level)
    ensures slot != Slots ==> Nearest(occ[..], level, from, slot)
  {
    ghost var bits := occ[..];
    var startWord, startBit := from / WordBits, from % WordBits;

    var start := occ[Words * level + startWord];
    var w := set b | b in start && startBit <= b;
    assert w == Window(bits, level, from, 0);
    if w != {} {
      var b := TrailingZeros(w, 0);
      WindowIsNearest(bits, level, from, 0, b);
      return WordBits * startWord + b;
    }
    for i := 1 to Words
      invariant forall k | 0 <= k < i :: Window(bits, level, from, k) == {}
    {
      var wi := (startWord + i) % Words;
      w := occ[Words * level + wi];
      assert w == Window(bits, level, from, i);
      if w != {} {
        var b := TrailingZeros(w, 0);
        WindowIsNearest(bits, level, from, i, b);
        return WordBits * wi + b;
      }
    }
    w := set b | b in start && b < startBit;
    assert w == Window(bits, level, from, Words);
    if w != {} {
      var b := TrailingZeros(w, 0);
      WindowIsNearest(bits, level, from, Words, b);
      return WordBits * startWord + b;
    }
    WindowsClear(bits, level, from);
    return Slots;
  }

  method LevelEmpty(occ: array<Word>, level: nat) returns (empty: bool)
    requires WordsOk(occ[..]) && level < Levels
    ensures empty <==> LevelClear(occ[..], level)
  {
    ghost var bits := occ[..];
    for w := 0 to Words
      invariant forall v | 0 <= v < w :: Window(bits, level, 0, v) == {}
    {
      var word := occ[Words * level + w];
      assert word == Window(bits, level, 0, w);
      if word != {} {
        WindowIsNearest(bits, level, 0, w, TrailingZeros(word, 0));
        return false;
      }
    }
    WindowsClear(bits, level, 0);
    return true;
  }
}
