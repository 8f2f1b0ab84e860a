/**
  The timer queue's entry table (src/Timer.cpp:303-322, 487-534, 603-669) with its free list,
  generations, handles and periodic records, and the history of what became of each handle.
  A handle names an entry and its generation; a generation is odd while the entry is armed.
 */
module TimerLedger {
  import opened Division
  import opened TimerLists

  datatype Handle = Handle(index: nat, generation: nat)

  datatype Outcome = Fired(clock: nat) | Disarmed

  datatype Settlement = Settlement(handle: Handle, outcome: Outcome)

  datatype Record = Record(
    interval: nat,
    due: nat,                  // the next grid point
    entry: int,                // the wheel entry while armed
    inFlight: bool,
    cancelled: bool,
    pendingSkipped: nat,
    totalSkipped: nat,
    first: nat,                // history: the first grid point
    launches: nat)             // history

  datatype Clock = Clock(epoch: nat, tick: nat)

  predicate ClockOk(k: Clock) {
    k.tick > 0
  }

  function NowTick(k: Clock, clock: nat): nat
    requires ClockOk(k) && k.epoch <= clock
  {
    (clock - k.epoch) / k.tick
  }

  // The first tick that begins no earlier than the given time.
  function TickFor(k: Clock, ns: nat): nat
    requires ClockOk(k)
  {
    if ns <= k.epoch then 0 else (ns - k.epoch + k.tick - 1) / k.tick
  }

  /** TickFor is the first tick that begins no earlier than the time. */
  lemma TickForIsLeast(k: Clock, ns: nat, t: nat)
    requires ClockOk(k)
    ensures TickFor(k, ns) <= t <==> ns <= k.epoch + t * k.tick
  {
    if ns > k.epoch { DivAtLeast(ns - k.epoch + k.tick - 1, k.tick, t + 1); }
  }

  /** NowTick is the last tick that has begun. */
  lemma NowTickIsGreatest(k: Clock, clock: nat, t: nat)
    requires ClockOk(k) && k.epoch <= clock
    ensures t <= NowTick(k, clock) <==> k.epoch + t * k.tick <= clock
  {
    DivAtLeast(clock - k.epoch, k.tick, t);
  }

  /** Rounding up is never early, and late by less than a tick: a deadline is not reached before its time,
      and is reached once a tick has passed since. */
  lemma TickForRoundsUp(k: Clock, ns: nat, clock: nat)
    requires ClockOk(k) && k.epoch <= clock
    ensures TickFor(k, ns) <= NowTick(k, clock) ==> ns <= clock
    ensures clock < ns ==> NowTick(k, clock) < TickFor(k, ns)
    ensures ns + k.tick <= clock ==> TickFor(k, ns) <= NowTick(k, clock)
    ensures TickFor(k, ns) > 0 ==> (TickFor(k, ns) - 1) * k.tick < ns - k.epoch <= TickFor(k, ns) * k.tick
    ensures NowTick(k, clock) * k.tick <= clock - k.epoch < (NowTick(k, clock) + 1) * k.tick
  {
    var t, m := TickFor(k, ns), NowTick(k, clock);
    TickForIsLeast(k, ns, m);
    TickForIsLeast(k, ns, t);
    if t > 0 { TickForIsLeast(k, ns, t - 1); }
    NowTickIsGreatest(k, clock, m);
    NowTickIsGreatest(k, clock, m + 1);
    assert (m + 1) * k.tick == m * k.tick + k.tick;
  }

  datatype Ledger = Ledger(
    entries: seq<Entry>,
    freeHead: nat,
    free: seq<nat>,                    // what the free list spells
    armedCount: int,
    records: seq<Record>,
    issued: set<Handle>,               // history: every handle Arm returned
    promised: map<Handle, nat>,        // history: arm time + delay, for the positive delays
    log: seq<Settlement>)              // history

  predicate IsArmed(e: Entry) {
    e.level != -1
  }

  function Armed(entries: seq<Entry>): set<nat> {
    set i | 0 <= i < |entries| && IsArmed(entries[i])
  }

  function FreeAt(free: seq<nat>, k: int): nat {
    if 0 <= k < |free| then free[k] + 1 else 0
  }

  predicate FreeNode(entries: seq<Entry>, free: seq<nat>, k: nat)
    requires k < |free|
  {
    free[k] < |entries| && !IsArmed(entries[free[k]]) && entries[free[k]].nextFree == FreeAt(free, k + 1)
  }

  // The free list holds exactly the entries that are not armed.
  predicate FreeOk(entries: seq<Entry>, freeHead: nat, free: seq<nat>) {
    && Distinct(free) && freeHead == FreeAt(free, 0)
    && (forall k | 0 <= k < |free| :: FreeNode(entries, free, k))
    && (forall i | 0 <= i < |entries| && !IsArmed(entries[i]) :: i in free)
  }

  predicate Odd(n: nat) {
    n % 2 == 1
  }

  lemma OddFlips(n: nat)
    ensures Odd(n + 1) == !Odd(n)
  {
  }

  predicate ParityOk(entries: seq<Entry>) {
    forall i | 0 <= i < |entries| :: Odd(entries[i].generation) == IsArmed(entries[i])
  }

  predicate Live(entries: seq<Entry>, h: Handle) {
    && h.index < |entries| && IsArmed(entries[h.index]) && entries[h.index].generation == h.generation
    && entries[h.index].record == Nil
  }

  predicate Outdated(entries: seq<Entry>, h: Handle) {
    h.index < |entries| && h.generation < entries[h.index].generation
  }

  predicate Settled(log: seq<Settlement>, h: Handle) {
    exists k :: 0 <= k < |log| && log[k].handle == h
  }

  predicate LogDistinct(log: seq<Settlement>) {
    forall j, k | 0 <= j < k < |log| :: log[j].handle != log[k].handle
  }

  // A handle that was issued is still armed or was settled, not both.
  predicate HandlesOk(l: Ledger) {
    && LogDistinct(l.log)
    && (forall h | h in l.issued :: h.index < |l.entries| && Odd(h.generation)
                                    && h.generation <= l.entries[h.index].generation)
    && (forall h | h in l.issued :: Live(l.entries, h) <==> !Settled(l.log, h))
    && (forall k | 0 <= k < |l.log| :: l.log[k].handle in l.issued && Outdated(l.entries, l.log[k].handle))
    && (forall i | 0 <= i < |l.entries| && IsArmed(l.entries[i]) && l.entries[i].record == Nil ::
          Handle(i, l.entries[i].generation) in l.issued)
  }

  predicate PromisesOk(l: Ledger, k: Clock)
    requires ClockOk(k)
  {
    && (forall h | h in l.promised :: h in l.issued)
    && (forall h | h in l.promised && Live(l.entries, h) :: TickFor(k, l.promised[h]) == l.entries[h.index].deadline)
    && (forall j | 0 <= j < |l.log| && l.log[j].handle in l.promised && l.log[j].outcome.Fired? ::
          l.promised[l.log[j].handle] <= l.log[j].outcome.clock)
  }

  // Every grid point up to the next one was launched or skipped.
  predicate RecordOk(r: Record, k: Clock) {
    && r.interval >= k.tick && (r.cancelled <==> r.entry == Nil)
    && r.due == r.first + (r.launches + r.totalSkipped) * r.interval
  }

  predicate RecordsOk(l: Ledger, k: Clock)
    requires ClockOk(k)
  {
    && (forall r | 0 <= r < |l.records| :: RecordOk(l.records[r], k))
    && (forall i | 0 <= i < |l.entries| && IsArmed(l.entries[i]) && l.entries[i].record != Nil ::
          var r := l.entries[i].record;
          0 <= r < |l.records| && l.records[r].entry == i && l.entries[i].deadline == TickFor(k, l.records[r].due))
    && (forall r | 0 <= r < |l.records| && l.records[r].entry != Nil ::
          var i := l.records[r].entry;
          0 <= i < |l.entries| && IsArmed(l.entries[i]) && l.entries[i].record == r)
  }

  predicate TableOk(l: Ledger) {
    FreeOk(l.entries, l.freeHead, l.free) && ParityOk(l.entries) && l.armedCount == |Armed(l.entries)|
  }

  predicate LedgerOk(l: Ledger, k: Clock) {
    && ClockOk(k)
    && TableOk(l) && HandlesOk(l) && PromisesOk(l, k) && RecordsOk(l, k)
  }

  // Nothing the ledger speaks of differs.
  predicate Alike(a: Entry, b: Entry) {
    && a.deadline == b.deadline && a.record == b.record && a.generation == b.generation
    && a.nextFree == b.nextFree && IsArmed(a) == IsArmed(b)
  }

  predicate AllAlike(entries: seq<Entry>, before: seq<Entry>) {
    |entries| == |before| && forall j | 0 <= j < |entries| :: Alike(entries[j], before[j])
  }

  lemma LedgerAlike(l: Ledger, k: Clock, entries: seq<Entry>)
    requires LedgerOk(l, k) && AllAlike(entries, l.entries)
    ensures LedgerOk(l.(entries := entries), k)
  {
    forall j | 0 <= j < |l.free| ensures FreeNode(entries, l.free, j) { assert FreeNode(l.entries, l.free, j); }
    assert Armed(entries) == Armed(l.entries);
    forall h ensures Live(entries, h) == Live(l.entries, h) {}
  }

  // ---------- an armed one-shot is settled ----------

  predicate SettledEntry(e: Entry, was: Entry, freeHead: nat) {
    !IsArmed(e) && e.generation == was.generation + 1 && e.nextFree == freeHead && e.record == Nil
  }

  predicate OnlyChanged(entries: seq<Entry>, before: seq<Entry>, i: nat) {
    |entries| == |before| && forall j | 0 <= j < |entries| && j != i :: Alike(entries[j], before[j])
  }

  lemma FreeGrows(l: Ledger, l': Ledger, i: nat)
    requires i < |l.entries| && IsArmed(l.entries[i]) && OnlyChanged(l'.entries, l.entries, i)
    requires !IsArmed(l'.entries[i]) && l'.entries[i].nextFree == l.freeHead
    requires l'.freeHead == i + 1 && l'.free == [i] + l.free && FreeOk(l.entries, l.freeHead, l.free)
    ensures FreeOk(l'.entries, l'.freeHead, l'.free)
  {
    forall k | 0 <= k < |l.free| ensures l.free[k] != i { assert FreeNode(l.entries, l.free, k); }
    forall k | 0 <= k < |l'.free| ensures FreeNode(l'.entries, l'.free, k) {
      if k > 0 { assert FreeNode(l.entries, l.free, k - 1); assert l'.free[k] == l.free[k - 1] && FreeAt(l'.free, k + 1) == FreeAt(l.free, k); }
    }
    forall j | 0 <= j < |l'.entries| && !IsArmed(l'.entries[j]) ensures j in l'.free {
      if j != i { assert Alike(l'.entries[j], l.entries[j]) && j in l.free; }
    }
  }

  // Entry i is armed in the second table and not in the first; the rest agree.
  lemma ArmedWith(idle: seq<Entry>, armed: seq<Entry>, i: nat)
    requires |idle| <= |armed| && i < |armed| && IsArmed(armed[i]) && (i < |idle| ==> !IsArmed(idle[i]))
    requires forall j | 0 <= j < |armed| && j != i :: j < |idle| && IsArmed(armed[j]) == IsArmed(idle[j])
    ensures |Armed(armed)| == |Armed(idle)| + 1
  {
    assert Armed(armed) == Armed(idle) + {i};
  }

  lemma ReleaseTable(l: Ledger, l': Ledger, i: nat)
    requires TableOk(l) && i < |l.entries| && IsArmed(l.entries[i]) && OnlyChanged(l'.entries, l.entries, i)
    requires SettledEntry(l'.entries[i], l.entries[i], l.freeHead)
    requires l'.freeHead == i + 1 && l'.free == [i] + l.free && l'.armedCount == l.armedCount - 1
    ensures TableOk(l')
  {
    FreeGrows(l, l', i);
    ArmedWith(l'.entries, l.entries, i);
    OddFlips(l.entries[i].generation);
    forall j | 0 <= j < |l'.entries| ensures Odd(l'.entries[j].generation) == IsArmed(l'.entries[j]) {
      if j != i { assert Alike(l'.entries[j], l.entries[j]); }
    }
  }

  lemma SettleHandles(l: Ledger, l': Ledger, i: nat, outcome: Outcome)
    requires HandlesOk(l) && i < |l.entries| && IsArmed(l.entries[i]) && l.entries[i].record == Nil
    requires OnlyChanged(l'.entries, l.entries, i) && SettledEntry(l'.entries[i], l.entries[i], l.freeHead)
    requires l'.issued == l.issued
    requires l'.log == l.log + [Settlement(Handle(i, l.entries[i].generation), outcome)]
    ensures HandlesOk(l')
  {
    var h := Handle(i, l.entries[i].generation);
    assert Live(l.entries, h) && h in l.issued && !Settled(l.log, h);
    assert LogDistinct(l'.log);
    forall g | g in l.issued ensures Live(l'.entries, g) <==> !Settled(l'.log, g) {
      assert Live(l.entries, g) <==> !Settled(l.log, g);
      if g == h { assert l'.log[|l.log|].handle == h; }
      else {
        SettledExtends(l.log, l'.log[|l.log|], g);
        assert g.index != i ==> Alike(l'.entries[g.index], l.entries[g.index]);
      }
    }
  }

  lemma SettledExtends(log: seq<Settlement>, s: Settlement, h: Handle)
    requires s.handle != h
    ensures Settled(log + [s], h) == Settled(log, h)
  {
    if Settled(log, h) {
      var k :| 0 <= k < |log| && log[k].handle == h;
      assert (log + [s])[k].handle == h;
    }
  }

  predicate RightTime(l: Ledger, k: Clock, i: nat, outcome: Outcome)
    requires ClockOk(k) && i < |l.entries|
  {
    outcome.Fired? ==> k.epoch <= outcome.clock && l.entries[i].deadline <= NowTick(k, outcome.clock)
  }

  /** A one-shot entry is settled: fired when due, or disarmed. */
  lemma LedgerSettle(l: Ledger, l': Ledger, k: Clock, i: nat, outcome: Outcome)
    requires LedgerOk(l, k) && i < |l.entries| && IsArmed(l.entries[i]) && l.entries[i].record == Nil
    requires OnlyChanged(l'.entries, l.entries, i) && SettledEntry(l'.entries[i], l.entries[i], l.freeHead)
    requires l'.freeHead == i + 1 && l'.free == [i] + l.free && l'.armedCount == l.armedCount - 1
    requires l'.issued == l.issued && l'.promised == l.promised && l'.records == l.records
    requires l'.log == l.log + [Settlement(Handle(i, l.entries[i].generation), outcome)]
    requires RightTime(l, k, i, outcome)
    ensures LedgerOk(l', k)
  {
    ReleaseTable(l, l', i);
    SettleHandles(l, l', i, outcome);
    SettlePromises(l, l', k, i, outcome);
    forall j | 0 <= j < |l'.entries| && IsArmed(l'.entries[j]) ensures Alike(l'.entries[j], l.entries[j]) {}
    forall r | 0 <= r < |l.records| && l.records[r].entry != Nil ensures l.records[r].entry != i {}
  }

  // Nothing fires before its promised time.
  lemma SettlePromises(l: Ledger, l': Ledger, k: Clock, i: nat, outcome: Outcome)
    requires ClockOk(k) && HandlesOk(l) && PromisesOk(l, k)
    requires i < |l.entries| && IsArmed(l.entries[i]) && l.entries[i].record == Nil
    requires OnlyChanged(l'.entries, l.entries, i) && !IsArmed(l'.entries[i])
    requires l'.issued == l.issued && l'.promised == l.promised
    requires l'.log == l.log + [Settlement(Handle(i, l.entries[i].generation), outcome)]
    requires RightTime(l, k, i, outcome)
    ensures PromisesOk(l', k)
  {
    var h := Handle(i, l.entries[i].generation);
    forall g | g in l'.promised && Live(l'.entries, g) ensures TickFor(k, l.promised[g]) == l'.entries[g.index].deadline {
      assert Alike(l'.entries[g.index], l.entries[g.index]) && Live(l.entries, g);
    }
    if h in l.promised && outcome.Fired? {
      assert Live(l.entries, h);
      TickForRoundsUp(k, l.promised[h], outcome.clock);
    }
  }

  // ---------- an entry is acquired and armed ----------

  // Entry i came off the free list, or the table grew by it.
  predicate Acquired(l: Ledger, l': Ledger, i: nat) {
    && |l'.entries| >= |l.entries| && i < |l'.entries|
    && (forall j | 0 <= j < |l.entries| && j != i :: Alike(l'.entries[j], l.entries[j]))
    && if l.free != []
       then i == l.free[0] && |l'.entries| == |l.entries| && l'.free == l.free[1..] && i < |l.entries|
            && l'.freeHead == l.entries[i].nextFree && l'.entries[i].generation == l.entries[i].generation + 1
       else i == |l.entries| && |l'.entries| == |l.entries| + 1 && l'.free == [] && l'.freeHead == l.freeHead
            && l'.entries[i].generation == 1
  }

  lemma FreeShrinks(l: Ledger, l': Ledger, i: nat)
    requires FreeOk(l.entries, l.freeHead, l.free) && Acquired(l, l', i) && IsArmed(l'.entries[i])
    ensures FreeOk(l'.entries, l'.freeHead, l'.free)
  {
    if l.free != [] {
      assert FreeNode(l.entries, l.free, 0);
      forall k | 0 <= k < |l'.free| ensures FreeNode(l'.entries, l'.free, k) {
        assert FreeNode(l.entries, l.free, k + 1);
        assert l'.free[k] == l.free[k + 1] && FreeAt(l'.free, k + 1) == FreeAt(l.free, k + 2);
      }
      assert FreeAt(l'.free, 0) == FreeAt(l.free, 1);
      forall j | 0 <= j < |l'.entries| && !IsArmed(l'.entries[j]) ensures j in l'.free {
        assert Alike(l'.entries[j], l.entries[j]) && j in l.free && j != l.free[0];
      }
    } else {
      forall j | 0 <= j < |l'.entries| ensures IsArmed(l'.entries[j]) {
        if j != i { assert Alike(l'.entries[j], l.entries[j]) && j !in l.free; }
      }
    }
  }

  lemma AcquireTable(l: Ledger, l': Ledger, i: nat)
    requires TableOk(l) && Acquired(l, l', i) && IsArmed(l'.entries[i]) && l'.armedCount == l.armedCount + 1
    ensures TableOk(l')
  {
    FreeShrinks(l, l', i);
    assert l.free != [] ==> FreeNode(l.entries, l.free, 0);
    forall j | 0 <= j < |l.entries| && j != i ensures Alike(l'.entries[j], l.entries[j]) {}
    ArmedWith(l.entries, l'.entries, i);
    AcquireOdd(l, l', i);
  }

  lemma AcquireOdd(l: Ledger, l': Ledger, i: nat)
    requires ParityOk(l.entries) && FreeOk(l.entries, l.freeHead, l.free) && Acquired(l, l', i) && IsArmed(l'.entries[i])
    ensures ParityOk(l'.entries)
  {
    assert l.free != [] ==> FreeNode(l.entries, l.free, 0);
    if l.free != [] { OddFlips(l.entries[i].generation); }
    forall j | 0 <= j < |l'.entries| ensures Odd(l'.entries[j].generation) == IsArmed(l'.entries[j]) {
      if j != i { assert Alike(l'.entries[j], l.entries[j]); }
    }
  }

  // No handle was ever issued for what entry i becomes.
  lemma AcquireFresh(l: Ledger, l': Ledger, i: nat)
    requires TableOk(l) && HandlesOk(l) && Acquired(l, l', i) && IsArmed(l'.entries[i])
    ensures var h := Handle(i, l'.entries[i].generation); h !in l.issued && !Settled(l.log, h)
    ensures Odd(l'.entries[i].generation)
    ensures forall g | g in l.issued :: Live(l'.entries, g) == Live(l.entries, g)
    ensures forall g | g in l.issued :: g.index < |l.entries| && g.generation <= l'.entries[g.index].generation
    ensures forall g | g in l.issued && Outdated(l.entries, g) :: Outdated(l'.entries, g)
  {
    assert l.free != [] ==> FreeNode(l.entries, l.free, 0);
    AcquireOdd(l, l', i);
    forall g | g in l.issued ensures Live(l'.entries, g) == Live(l.entries, g)
                                     && g.generation <= l'.entries[g.index].generation
    {
      if g.index != i { assert Alike(l'.entries[g.index], l.entries[g.index]); }
    }
    var h := Handle(i, l'.entries[i].generation);
    assert forall k | 0 <= k < |l.log| :: l.log[k].handle in l.issued;
  }

  /** Arm: a fresh handle, armed for the tick that its time rounds up to. */
  lemma LedgerArm(l: Ledger, l': Ledger, k: Clock, i: nat, promise: nat, hasPromise: bool)
    requires LedgerOk(l, k) && Acquired(l, l', i) && IsArmed(l'.entries[i]) && l'.entries[i].record == Nil
    requires l'.armedCount == l.armedCount + 1 && l'.records == l.records && l'.log == l.log
    requires var h := Handle(i, l'.entries[i].generation);
             l'.issued == l.issued + {h} && l'.promised == if hasPromise then l.promised[h := promise] else l.promised
    requires hasPromise ==> l'.entries[i].deadline == TickFor(k, promise)
    ensures LedgerOk(l', k) && Handle(i, l'.entries[i].generation) !in l.issued
  {
    AcquireTable(l, l', i);
    AcquireFresh(l, l', i);
    var h := Handle(i, l'.entries[i].generation);
    assert Live(l'.entries, h) && !Settled(l'.log, h);
    ArmHandles(l, l', i);
    forall g | g in l'.promised && Live(l'.entries, g) ensures TickFor(k, l'.promised[g]) == l'.entries[g.index].deadline {
      if g != h { assert Live(l.entries, g) && Alike(l'.entries[g.index], l.entries[g.index]); }
    }
    ArmRecords(l, l', k, i);
  }

  lemma ArmHandles(l: Ledger, l': Ledger, i: nat)
    requires TableOk(l) && HandlesOk(l) && Acquired(l, l', i) && IsArmed(l'.entries[i]) && l'.log == l.log
    requires l'.entries[i].record == Nil ==> l'.issued == l.issued + {Handle(i, l'.entries[i].generation)}
    requires l'.entries[i].record != Nil ==> l'.issued == l.issued
    ensures HandlesOk(l')
  {
    AcquireFresh(l, l', i);
    forall j | 0 <= j < |l'.entries| && IsArmed(l'.entries[j]) && l'.entries[j].record == Nil
      ensures Handle(j, l'.entries[j].generation) in l'.issued
    {
      if j != i { assert Alike(l'.entries[j], l.entries[j]); }
    }
  }

  lemma ArmRecords(l: Ledger, l': Ledger, k: Clock, i: nat)
    requires ClockOk(k) && TableOk(l) && RecordsOk(l, k) && Acquired(l, l', i) && IsArmed(l'.entries[i])
    requires if l'.entries[i].record == Nil then l'.records == l.records
             else && |l'.records| == |l.records| + 1 && l'.records[..|l.records|] == l.records
                  && l'.entries[i].record == |l.records|
                  && RecordOk(l'.records[|l.records|], k) && l'.records[|l.records|].entry == i
                  && l'.entries[i].deadline == TickFor(k, l'.records[|l.records|].due)
    ensures RecordsOk(l', k)
  {
    assert l.free != [] ==> FreeNode(l.entries, l.free, 0);
    forall r | 0 <= r < |l.records| ensures l'.records[r] == l.records[r] {
      if l'.entries[i].record != Nil { assert l'.records[..|l.records|][r] == l'.records[r]; }
    }
    forall j | 0 <= j < |l'.entries| && IsArmed(l'.entries[j]) && l'.entries[j].record != Nil
      ensures var r := l'.entries[j].record;
              0 <= r < |l'.records| && l'.records[r].entry == j && l'.entries[j].deadline == TickFor(k, l'.records[r].due)
    {
      if j != i { assert Alike(l'.entries[j], l.entries[j]); }
    }
    forall r | 0 <= r < |l'.records| && l'.records[r].entry != Nil
      ensures var j := l'.records[r].entry;
              0 <= j < |l'.entries| && IsArmed(l'.entries[j]) && l'.entries[j].record == r
    {
      if r < |l.records| { assert Alike(l'.entries[l.records[r].entry], l.entries[l.records[r].entry]); }
    }
  }

  /** Periodic::Start: an entry of its own that no handle names. */
  lemma LedgerStart(l: Ledger, l': Ledger, k: Clock, i: nat)
    requires LedgerOk(l, k) && Acquired(l, l', i) && IsArmed(l'.entries[i]) && l'.armedCount == l.armedCount + 1
    requires l'.issued == l.issued && l'.promised == l.promised && l'.log == l.log
    requires && |l'.records| == |l.records| + 1 && l'.records[..|l.records|] == l.records
             && l'.entries[i].record == |l.records|
             && RecordOk(l'.records[|l.records|], k) && l'.records[|l.records|].entry == i
             && l'.entries[i].deadline == TickFor(k, l'.records[|l.records|].due)
    ensures LedgerOk(l', k)
  {
    AcquireTable(l, l', i);
    AcquireFresh(l, l', i);
    ArmHandles(l, l', i);
    ArmRecords(l, l', k, i);
    forall g | g in l'.promised && Live(l'.entries, g) ensures TickFor(k, l'.promised[g]) == l'.entries[g.index].deadline {
      assert Live(l.entries, g);
      assert g.index != i ==> Alike(l'.entries[g.index], l.entries[g.index]);
    }
  }

  // ---------- the periodic grid ----------

  // Grid points passed beyond the one that is due.
  function PassedPoints(r: Record, clock: nat): nat
    requires r.interval > 0
  {
    if clock > r.due then (clock - r.due) / r.interval else 0
  }

  // FirePeriodicLocked's arithmetic.
  function NextPoint(r: Record, clock: nat): (r': Record)
    requires r.interval > 0
  {
    var passed := PassedPoints(r, clock);
    var skipped := passed + if r.inFlight then 1 else 0;
    r.(due := r.due + (passed + 1) * r.interval,
       inFlight := true,
       launches := r.launches + if r.inFlight then 0 else 1,
       pendingSkipped := r.pendingSkipped + skipped,
       totalSkipped := r.totalSkipped + skipped)
  }

  /** The next grid point is the first one after the clock, and none in between is forgotten. */
  lemma NextPointIsAhead(r: Record, k: Clock, clock: nat)
    requires ClockOk(k) && RecordOk(r, k)
    ensures var r' := NextPoint(r, clock);
            && RecordOk(r', k) && clock < r'.due && r.due < r'.due
            && (r.due <= clock ==> r'.due - r.interval <= clock)
            && (clock < r.due ==> r'.due == r.due + r.interval)
            && r'.inFlight && r'.launches == r.launches + (if r.inFlight then 0 else 1)
            && r'.pendingSkipped - r.pendingSkipped == r'.totalSkipped - r.totalSkipped >= (if r.inFlight then 1 else 0)
            && r'.due == r.due + (r'.launches - r.launches + r'.totalSkipped - r.totalSkipped) * r.interval
  {
    var passed := PassedPoints(r, clock);
    var r' := NextPoint(r, clock);
    assert r'.launches + r'.totalSkipped == r.launches + r.totalSkipped + passed + 1;
    assert (r.launches + r.totalSkipped + passed + 1) * r.interval ==
           (r.launches + r.totalSkipped) * r.interval + (passed + 1) * r.interval;
    assert (passed + 1) * r.interval == passed * r.interval + r.interval;
    if clock > r.due {
      assert passed * r.interval <= clock - r.due < passed * r.interval + r.interval;
    } else {
      assert passed * r.interval == 0;
    }
  }

  /** A due periodic entry is armed again for the next grid point. */
  lemma LedgerRegrid(l: Ledger, l': Ledger, k: Clock, i: nat, clock: nat)
    requires LedgerOk(l, k) && i < |l.entries| && IsArmed(l.entries[i]) && l.entries[i].record != Nil
    requires OnlyChanged(l'.entries, l.entries, i)
    requires l'.freeHead == l.freeHead && l'.free == l.free && l'.armedCount == l.armedCount
    requires l'.issued == l.issued && l'.promised == l.promised && l'.log == l.log
    requires var r := l.entries[i].record;
             && 0 <= r < |l.records| && l.records[r].interval > 0
             && l'.records == l.records[r := NextPoint(l.records[r], clock)]
             && var e := l'.entries[i];
                IsArmed(e) && e.record == r && e.generation == l.entries[i].generation
                && e.nextFree == l.entries[i].nextFree && e.deadline == TickFor(k, l'.records[r].due)
    ensures LedgerOk(l', k)
  {
    var r := l.entries[i].record;
    NextPointIsAhead(l.records[r], k, clock);
    RegridTable(l, l', i);
    RegridRecords(l, l', k, i);
  }

  lemma RegridTable(l: Ledger, l': Ledger, i: nat)
    requires TableOk(l) && HandlesOk(l) && i < |l.entries| && IsArmed(l.entries[i]) && l.entries[i].record != Nil
    requires OnlyChanged(l'.entries, l.entries, i)
    requires l'.freeHead == l.freeHead && l'.free == l.free && l'.armedCount == l.armedCount
    requires l'.issued == l.issued && l'.log == l.log
    requires IsArmed(l'.entries[i]) && l'.entries[i].record != Nil && l'.entries[i].generation == l.entries[i].generation
    ensures TableOk(l') && HandlesOk(l') && forall h :: Live(l'.entries, h) == Live(l.entries, h)
  {
    assert Armed(l'.entries) == Armed(l.entries);
    forall k | 0 <= k < |l.free| ensures FreeNode(l'.entries, l.free, k) { assert FreeNode(l.entries, l.free, k); }
    forall h ensures Live(l'.entries, h) == Live(l.entries, h) {
      if h.index < |l.entries| && h.index != i { assert Alike(l'.entries[h.index], l.entries[h.index]); }
    }
  }

  lemma RegridRecords(l: Ledger, l': Ledger, k: Clock, i: nat)
    requires ClockOk(k) && RecordsOk(l, k) && i < |l.entries| && IsArmed(l.entries[i]) && l.entries[i].record != Nil
    requires OnlyChanged(l'.entries, l.entries, i)
    requires var r := l.entries[i].record;
             && 0 <= r < |l.records| && |l'.records| == |l.records|
             && RecordOk(l'.records[r], k) && l'.records[r].entry == l.records[r].entry
             && (forall q | 0 <= q < |l.records| && q != r :: l'.records[q] == l.records[q])
             && IsArmed(l'.entries[i]) && l'.entries[i].record == r && l'.entries[i].deadline == TickFor(k, l'.records[r].due)
    ensures RecordsOk(l', k)
  {
    var r := l.entries[i].record;
    forall j | 0 <= j < |l'.entries| && IsArmed(l'.entries[j]) && l'.entries[j].record != Nil
      ensures var q := l'.entries[j].record;
              0 <= q < |l'.records| && l'.records[q].entry == j && l'.entries[j].deadline == TickFor(k, l'.records[q].due)
    {
      if j != i { assert Alike(l'.entries[j], l.entries[j]); }
    }
  }

  /** CancelPeriodicLocked: the record's entry goes back to the free list. */
  lemma LedgerCancel(l: Ledger, l': Ledger, k: Clock, r: nat)
    requires LedgerOk(l, k) && r < |l.records| && l.records[r].entry != Nil
    requires var i := l.records[r].entry;
             && OnlyChanged(l'.entries, l.entries, i)
             && SettledEntry(l'.entries[i], l.entries[i], l.freeHead)
             && l'.freeHead == i + 1 && l'.free == [i] + l.free && l'.armedCount == l.armedCount - 1
    requires l'.issued == l.issued && l'.promised == l.promised && l'.log == l.log
    requires l'.records == l.records[r := l.records[r].(cancelled := true, entry := Nil)]
    ensures LedgerOk(l', k)
  {
    var i := l.records[r].entry;
    ReleaseTable(l, l', i);
    forall h | h in l.issued
      ensures Live(l'.entries, h) == Live(l.entries, h) && h.generation <= l'.entries[h.index].generation
    {
      if h.index != i { assert Alike(l'.entries[h.index], l.entries[h.index]); }
    }
    CancelRecords(l, l', k, r);
  }

  lemma CancelRecords(l: Ledger, l': Ledger, k: Clock, r: nat)
    requires ClockOk(k) && RecordsOk(l, k) && r < |l.records| && l.records[r].entry != Nil
    requires OnlyChanged(l'.entries, l.entries, l.records[r].entry) && !IsArmed(l'.entries[l.records[r].entry])
    requires l'.records == l.records[r := l.records[r].(cancelled := true, entry := Nil)]
    ensures RecordsOk(l', k)
  {
    forall j | 0 <= j < |l'.entries| && IsArmed(l'.entries[j]) && l'.entries[j].record != Nil
      ensures var q := l'.entries[j].record;
              0 <= q < |l'.records| && l'.records[q].entry == j && l'.entries[j].deadline == TickFor(k, l'.records[q].due)
    {
      assert Alike(l'.entries[j], l.entries[j]);
    }
  }

  // A handle that no caller was given: it names a periodic entry's own generation.
  predicate NamesPeriodic(entries: seq<Entry>, h: Handle) {
    && h.index < |entries| && IsArmed(entries[h.index]) && entries[h.index].generation == h.generation
    && entries[h.index].record != Nil
  }

  // A current odd generation is an armed one-shot's, and its handle was issued.
  lemma LiveByGeneration(l: Ledger, k: Clock, h: Handle)
    requires LedgerOk(l, k) && h.index < |l.entries| && l.entries[h.index].generation == h.generation
    requires Odd(h.generation) && !NamesPeriodic(l.entries, h)
    ensures Live(l.entries, h) && h in l.issued && !Settled(l.log, h)
  {
    assert IsArmed(l.entries[h.index]);
    assert Handle(h.index, l.entries[h.index].generation) == h;
  }

  // A handle is an armed one-shot's, a periodic entry's, or nobody's, and the generation tells which.
  lemma HandleKinds(l: Ledger, k: Clock, h: Handle)
    requires LedgerOk(l, k)
    ensures NamesPeriodic(l.entries, h) ==> h !in l.issued || Settled(l.log, h)
    ensures h.index < |l.entries| && l.entries[h.index].generation == h.generation && Odd(h.generation) ==>
              IsArmed(l.entries[h.index]) && (NamesPeriodic(l.entries, h) || (h in l.issued && !Settled(l.log, h)))
    ensures !(h.index < |l.entries| && l.entries[h.index].generation == h.generation && Odd(h.generation)) ==>
              !NamesPeriodic(l.entries, h) && (h in l.issued ==> Settled(l.log, h))
  {
    if h.index < |l.entries| && l.entries[h.index].generation == h.generation && Odd(h.generation)
       && !NamesPeriodic(l.entries, h) { LiveByGeneration(l, k, h); }
    assert h in l.issued ==> (Live(l.entries, h) <==> !Settled(l.log, h));
  }

  // A periodic entry released behind its record's back: the record still names it.
  lemma DanglingRecord(l: Ledger, l': Ledger, k: Clock, h: Handle)
    requires LedgerOk(l, k) && NamesPeriodic(l.entries, h) && l'.records == l.records
    requires |l'.entries| == |l.entries| && !IsArmed(l'.entries[h.index])
    ensures !LedgerOk(l', k)
  {
    var r := l.entries[h.index].record;
    assert l.records[r].entry == h.index;
  }

  lemma LedgerFinish(l: Ledger, k: Clock, r: nat)
    requires LedgerOk(l, k) && r < |l.records|
    ensures LedgerOk(l.(records := l.records[r := l.records[r].(inFlight := false)]), k)
  {
    assert RecordOk(l.records[r], k);
  }

  function Elements(xs: seq<nat>): set<nat> {
    if xs == [] then {} else {xs[0]} + Elements(xs[1..])
  }

  lemma {:induction false} DistinctSize(xs: seq<nat>)
    requires Distinct(xs)
    ensures |Elements(xs)| == |xs| && forall x :: x in Elements(xs) <==> x in xs
  {
    if xs != [] {
      DistinctSize(xs[1..]);
      assert xs[0] !in xs[1..];
    }
  }

  // The indices below n are as many as the armed and the free ones together.
  lemma {:induction false} Shares(n: nat, armed: set<nat>, free: set<nat>)
    requires armed !! free && (forall i | i in armed :: i < n) && (forall i | i in free :: i < n)
    requires forall i: nat | i < n :: i in armed || i in free
    ensures |armed| + |free| == n
  {
    if n == 0 {
      assert armed == {} && free == {};
    } else if n - 1 in armed {
      Shares(n - 1, armed - {n - 1}, free);
    } else {
      Shares(n - 1, armed, free - {n - 1});
    }
  }

  /** Armed and free entries share the table out between them, and armedCount counts the armed ones. */
  lemma ArmedAndFree(l: Ledger, k: Clock)
    requires LedgerOk(l, k)
    ensures forall i: nat | i < |l.entries| :: i in Armed(l.entries) <==> i !in l.free
    ensures l.armedCount + |l.free| == |l.entries|
  {
    forall j | 0 <= j < |l.free| ensures l.free[j] < |l.entries| && !IsArmed(l.entries[l.free[j]]) {
      assert FreeNode(l.entries, l.free, j);
    }
    DistinctSize(l.free);
    Shares(|l.entries|, Armed(l.entries), Elements(l.free));
  }

  /** A handle is settled at most once; one armed with a positive delay never fires before its time. */
  lemma SettledOnceAndOnTime(l: Ledger, k: Clock, h: Handle)
    requires LedgerOk(l, k) && h in l.issued
    ensures Live(l.entries, h) != Settled(l.log, h)
    ensures forall i, j | 0 <= i < |l.log| && 0 <= j < |l.log| && l.log[i].handle == h == l.log[j].handle :: i == j
    ensures forall j | 0 <= j < |l.log| && l.log[j].handle == h && h in l.promised && l.log[j].outcome.Fired? ::
              l.promised[h] <= l.log[j].outcome.clock
  {
  }
}
