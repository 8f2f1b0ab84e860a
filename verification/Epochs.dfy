/**
  Epoch-based reclamation (include/Epochs.h, src/Reclaimer.cpp), as a transition
  system of single atomic accesses over any number of threads and objects.  A pin is a
  load of the global epoch followed by a separate store to the thread's slot, and the
  minimum scan reads the global epoch first and then one slot at a time.

  An object is identified by its life: an address used again is a new object.
  `place` is a history of where each object is; `stamp` of the epoch it was retired in.
 */
module Epochs {

  type Object = nat

  datatype Option<+T> = None | Some(value: T)

  datatype Retired = Retired(obj: Object, epoch: nat)

  // Where a retire has got to: the unlinked object, then its epoch.
  datatype Retiring = NotRetiring | Unlinked(obj: Object) | Stamped(obj: Object, epoch: nat)

  datatype Reclaim =
    | RIdle
    | RAdvance(seen: nat)               // AdvanceEpoch between its load and its compare-and-swap
    | RScan(min: nat, next: nat)        // MinActiveEpoch: slots below next have been read
    | RFree(safe: nat, i: nat)          // TryReclaim's walk over the detached bag
    | RSwept(safe: nat)                 // own bag done; the orphans may follow
    | RSweep(safe: nat, i: nat)         // SweepEpochOrphans, under the orphan lock

  datatype Thread = Thread(
    slot: Option<nat>,                  // None is SIZE_MAX
    pinning: Option<nat>,               // the epoch loaded by a guard that has not stored it yet
    guards: nat,                        // open guards; only the outermost pins and unpins
    held: set<Object>,                  // objects reached under the open guard
    since: nat,                         // history: how many unlinks there had been when the guard opened
    retiring: Retiring,
    bag: seq<Retired>,
    work: seq<Retired>,                 // the bag, detached for a reclaim pass
    reclaim: Reclaim)

  datatype Place = Linked | InHand(t: nat) | InBag(t: nat) | InWork(t: nat) | Orphaned | Freed

  datatype State = State(
    global: nat,
    threads: seq<Thread>,
    orphans: seq<Retired>,
    lock: Option<nat>,                  // who sweeps the orphans
    freed: seq<Object>,
    place: map<Object, Place>,
    stamp: map<Object, nat>,
    unlinks: nat,                       // history: how many unlinks there have been
    gone: map<Object, nat>)             // history: which unlink each object left by

  datatype Event =
    | Publish(obj: Object)
    | OpenGuard(t: nat)
    | StorePin(t: nat)
    | Reach(t: nat, obj: Object)        // follow a link, perhaps a stale one, to an object, guard open
    | CloseGuard(t: nat)
    | Unlink(t: nat, obj: Object)
    | StampEpoch(t: nat)                // CurrentEpoch, after the unlink
    | Bag(t: nat, bagDead: bool)        // RetirePtr: own bag, or the orphans if that is gone
    | LoadForAdvance(t: nat)
    | BeginScan(t: nat)
    | SweepOrphans(t: nat)
    | SkipOrphans(t: nat)
    | ReclaimStep(t: nat)
    | HandOff(t: nat)                   // the idle gate gives the bag to the orphans

  function NewThread(): Thread {
    Thread(None, None, 0, {}, 0, NotRetiring, [], [], RIdle)
  }

  function Init(threads: nat): State {
    State(0, seq(threads, _ => NewThread()), [], None, [], map[], map[], 0, map[])
  }

  // The thread's guard is open and the object has been linked at some time since it opened: the links
  // out of a node that the reader holds may be stale, but no older than that.
  predicate MayReach(s: State, th: Thread, o: Object) {
    && th.slot.Some? && o in s.place
    && (s.place[o] == Linked || (o in s.gone && th.since <= s.gone[o]))
  }

  // ---------- the steps ----------

  function SetThread(s: State, t: nat, th: Thread): State
    requires t < |s.threads|
  {
    s.(threads := s.threads[t := th])
  }

  function Remove<T>(xs: seq<T>, i: nat): seq<T>
    requires i < |xs|
  {
    xs[..i] + xs[i + 1..]
  }

  // The place of every entry of a list that moves as a whole.
  function Moved(place: map<Object, Place>, list: seq<Retired>, to: Place): map<Object, Place> {
    map o | o in place :: if exists i :: 0 <= i < |list| && list[i].obj == o then to else place[o]
  }

  function Free(s: State, o: Object): State {
    s.(freed := s.freed + [o], place := s.place[o := Freed])
  }

  function StepBag(s: State, t: nat, bagDead: bool): State
    requires t < |s.threads| && s.threads[t].retiring.Stamped?
  {
    var th := s.threads[t];
    var Stamped(o, e) := th.retiring;
    if bagDead then
      if s.lock.None? then
        SetThread(s, t, th.(retiring := NotRetiring)).(
          orphans := s.orphans + [Retired(o, e)], place := s.place[o := Orphaned])
      else s
    else
      SetThread(s, t, th.(retiring := NotRetiring, bag := th.bag + [Retired(o, e)])).(
        place := s.place[o := InBag(t)])
  }

  function StepReclaim(s: State, t: nat): (s': State)
    requires t < |s.threads|
    ensures |s'.threads| == |s.threads|
  {
    var th := s.threads[t];
    match th.reclaim
    case RIdle => s
    case RAdvance(seen) =>
      SetThread(s, t, th.(reclaim := RIdle)).(global := if s.global == seen then seen + 1 else s.global)
    case RScan(min, next) =>
      if next < |s.threads| then
        var e := s.threads[next].slot;
        SetThread(s, t, th.(reclaim := RScan(if e.Some? && e.value < min then e.value else min, next + 1)))
      else
        SetThread(s, t, th.(reclaim := RFree(min, 0), work := th.bag, bag := [])).(
          place := Moved(s.place, th.bag, InWork(t)))
    case RFree(safe, i) =>
      if i < |th.work| then
        if th.work[i].epoch < safe then
          Free(SetThread(s, t, th.(work := Remove(th.work, i))), th.work[i].obj)
        else SetThread(s, t, th.(reclaim := RFree(safe, i + 1)))
      else
        SetThread(s, t, th.(reclaim := RSwept(safe), bag := th.bag + th.work, work := [])).(
          place := Moved(s.place, th.work, InBag(t)))
    case RSwept(safe) => s
    case RSweep(safe, i) =>
      if i < |s.orphans| then
        if s.orphans[i].epoch < safe then
          Free(s.(orphans := Remove(s.orphans, i)), s.orphans[i].obj)
        else SetThread(s, t, th.(reclaim := RSweep(safe, i + 1)))
      else SetThread(s, t, th.(reclaim := RIdle)).(lock := None)
  }

  function StepThread(s: State, t: nat, e: Event): State
    requires t < |s.threads|
  {
    var th := s.threads[t];
    match e
    case OpenGuard(_) =>
      if th.guards > 0 then SetThread(s, t, th.(guards := th.guards + 1))
      else SetThread(s, t, th.(pinning := Some(s.global)))
    case StorePin(_) =>
      if th.pinning.Some?
      then SetThread(s, t, th.(slot := th.pinning, pinning := None, guards := 1, since := s.unlinks)) else s
    case Reach(_, o) =>
      if th.guards > 0 && MayReach(s, th, o)
      then SetThread(s, t, th.(held := th.held + {o})) else s
    case CloseGuard(_) =>
      if th.guards > 1 then SetThread(s, t, th.(guards := th.guards - 1))
      else if th.guards == 1 then SetThread(s, t, th.(guards := 0, slot := None, held := {}))
      else s
    case Unlink(_, o) =>
      if th.retiring.NotRetiring? && o in s.place && s.place[o] == Linked
      then SetThread(s, t, th.(retiring := Unlinked(o))).(
             place := s.place[o := InHand(t)], gone := s.gone[o := s.unlinks], unlinks := s.unlinks + 1)
      else s
    case StampEpoch(_) =>
      if th.retiring.Unlinked?
      then SetThread(s, t, th.(retiring := Stamped(th.retiring.obj, s.global))).(
             stamp := s.stamp[th.retiring.obj := s.global])
      else s
    case Bag(_, bagDead) => if th.retiring.Stamped? then StepBag(s, t, bagDead) else s
    case LoadForAdvance(_) =>
      if th.reclaim.RIdle? then SetThread(s, t, th.(reclaim := RAdvance(s.global))) else s
    case BeginScan(_) =>
      if th.reclaim.RIdle? then SetThread(s, t, th.(reclaim := RScan(s.global, 0))) else s
    case SweepOrphans(_) =>
      if th.reclaim.RSwept? && s.lock.None?
      then SetThread(s, t, th.(reclaim := RSweep(th.reclaim.safe, 0))).(lock := Some(t)) else s
    case SkipOrphans(_) =>
      if th.reclaim.RSwept? then SetThread(s, t, th.(reclaim := RIdle)) else s
    case ReclaimStep(_) => StepReclaim(s, t)
    case HandOff(_) =>
      if th.reclaim.RIdle? && s.lock.None?
      then SetThread(s, t, th.(bag := [])).(
             orphans := s.orphans + th.bag, place := Moved(s.place, th.bag, Orphaned))
      else s
    case Publish(_) => s
  }

  function Step(s: State, e: Event): State {
    match e
    case Publish(o) => if o in s.place then s else s.(place := s.place[o := Linked])
    case _ => if e.t < |s.threads| then StepThread(s, e.t, e) else s
  }

  function Run(s: State, events: seq<Event>): State {
    if events == [] then s
    else Step(Run(s, events[..|events| - 1]), events[|events| - 1])
  }

  // ---------- the invariant: epochs ----------

  // An object has a stamp exactly from its retire on.
  predicate StampsOk(s: State) {
    && (forall o | o in s.stamp :: o in s.place && s.place[o] != Linked && s.stamp[o] <= s.global)
    && (forall t | 0 <= t < |s.threads| && s.threads[t].retiring.Unlinked? ::
          s.threads[t].retiring.obj !in s.stamp)
  }

  // An object has left by an unlink exactly when it is no longer linked.
  predicate GoneOk(s: State) {
    && (forall o | o in s.place :: s.place[o] == Linked <==> o !in s.gone)
    && (forall o | o in s.gone :: o in s.place && s.gone[o] < s.unlinks)
  }

  // What an open guard may reach, and so what it has reached, is not freed and not retired before its pin.
  predicate GuardOk(s: State, th: Thread) {
    && (th.guards > 0 <==> th.slot.Some?)
    && (th.slot.Some? ==> th.slot.value <= s.global && th.since <= s.unlinks)
    && (th.pinning.Some? ==> th.slot.None? && th.pinning.value <= s.global)
    && (forall o | o in th.held :: MayReach(s, th, o))
    && (forall o | o in s.place && MayReach(s, th, o) ::
          s.place[o] != Freed && (o in s.stamp ==> th.slot.value <= s.stamp[o]))
  }

  // The bound a reclaiming thread works with, and the slots it has already read for it.
  function Bound(r: Reclaim): Option<nat> {
    match r
    case RIdle => None
    case RAdvance(_) => None
    case RScan(min, _) => Some(min)
    case RFree(safe, _) => Some(safe)
    case RSwept(safe) => Some(safe)
    case RSweep(safe, _) => Some(safe)
  }

  function Read(s: State, r: Reclaim): nat {
    if r.RScan? then r.next else |s.threads|
  }

  // Nobody whose slot was read can reach an object retired before the bound.
  predicate BoundOk(s: State, r: Reclaim) {
    var b := Bound(r);
    b.Some? ==>
      && b.value <= s.global
      && Read(s, r) <= |s.threads|
      && forall i, o | 0 <= i < Read(s, r) && o in s.stamp && MayReach(s, s.threads[i], o) :: b.value <= s.stamp[o]
  }

  predicate EpochInv(s: State) {
    && StampsOk(s) && GoneOk(s)
    && (forall t | 0 <= t < |s.threads| :: GuardOk(s, s.threads[t]))
    && (forall t | 0 <= t < |s.threads| :: BoundOk(s, s.threads[t].reclaim))
  }

  // ---------- the invariant: places ----------

  // The list holds exactly the objects of one place, once each, under their stamps.
  predicate ListOk(s: State, list: seq<Retired>, p: Place) {
    && (forall i | 0 <= i < |list| ::
          && list[i].obj in s.place && s.place[list[i].obj] == p
          && list[i].obj in s.stamp && s.stamp[list[i].obj] == list[i].epoch)
    && (forall i, j | 0 <= i < j < |list| :: list[i].obj != list[j].obj)
    && (forall o | o in s.place && s.place[o] == p :: exists i :: 0 <= i < |list| && list[i].obj == o)
  }

  predicate HandOk(s: State, t: nat)
    requires t < |s.threads|
  {
    match s.threads[t].retiring
    case NotRetiring => forall o | o in s.place :: s.place[o] != InHand(t)
    case Unlinked(o) => o in s.place && forall x | x in s.place :: s.place[x] == InHand(t) <==> x == o
    case Stamped(o, e) =>
      && o in s.place && (forall x | x in s.place :: s.place[x] == InHand(t) <==> x == o)
      && o in s.stamp && s.stamp[o] == e
  }

  predicate ThreadPlaces(s: State, t: nat)
    requires t < |s.threads|
  {
    && ListOk(s, s.threads[t].bag, InBag(t))
    && ListOk(s, s.threads[t].work, InWork(t))
    && HandOk(s, t)
    && (s.threads[t].reclaim.RFree? || s.threads[t].work == [])
  }

  predicate FreedOk(s: State) {
    && (forall i | 0 <= i < |s.freed| :: s.freed[i] in s.place && s.place[s.freed[i]] == Freed)
    && (forall i, j | 0 <= i < j < |s.freed| :: s.freed[i] != s.freed[j])
    && (forall o | o in s.place && s.place[o] == Freed :: o in s.freed)
  }

  predicate PlaceInv(s: State) {
    && (forall t | 0 <= t < |s.threads| :: ThreadPlaces(s, t))
    && ListOk(s, s.orphans, Orphaned)
    && FreedOk(s)
  }

  predicate Inv(s: State) {
    EpochInv(s) && PlaceInv(s)
  }

  // ---------- preservation: epochs ----------

  // A step of thread t that leaves every other thread, the places and the stamps alone.
  lemma LocalEpochStep(s: State, s': State, t: nat)
    requires EpochInv(s) && t < |s.threads| && |s'.threads| == |s.threads|
    requires forall i | 0 <= i < |s.threads| && i != t :: s'.threads[i] == s.threads[i]
    requires s'.place == s.place && s'.stamp == s.stamp && s.global <= s'.global
    requires s'.gone == s.gone && s'.unlinks == s.unlinks
    requires GuardOk(s', s'.threads[t]) && BoundOk(s', s'.threads[t].reclaim)
    requires s'.threads[t].retiring == s.threads[t].retiring
    requires forall o | o in s.stamp && MayReach(s', s'.threads[t], o) :: MayReach(s, s.threads[t], o)
    ensures EpochInv(s')
  {
    forall i | 0 <= i < |s'.threads| ensures GuardOk(s', s'.threads[i]) {
      if i != t { assert GuardOk(s, s.threads[i]); }
    }
    forall i | 0 <= i < |s'.threads| ensures BoundOk(s', s'.threads[i].reclaim) {
      if i != t { assert BoundOk(s, s.threads[i].reclaim); }
    }
    forall i | 0 <= i < |s'.threads| && s'.threads[i].retiring.Unlinked?
      ensures s'.threads[i].retiring.obj !in s'.stamp
    {
      assert s.threads[i].retiring == s'.threads[i].retiring;
    }
  }

  // A step of thread t that moves neither its guard nor any object.
  lemma BoundStep(s: State, t: nat, th: Thread, global: nat)
    requires EpochInv(s) && t < |s.threads| && s.global <= global
    requires th == s.threads[t].(reclaim := th.reclaim)
    requires BoundOk(SetThread(s, t, th).(global := global), th.reclaim)
    ensures EpochInv(SetThread(s, t, th).(global := global))
  {
    var s' := SetThread(s, t, th).(global := global);
    assert GuardOk(s, s.threads[t]);
    LocalEpochStep(s, s', t);
  }

  lemma OpenEpochs(s: State, t: nat)
    requires EpochInv(s) && t < |s.threads|
    ensures EpochInv(StepThread(s, t, OpenGuard(t)))
  {
    assert GuardOk(s, s.threads[t]) && BoundOk(s, s.threads[t].reclaim);
    LocalEpochStep(s, StepThread(s, t, OpenGuard(t)), t);
  }

  // At the moment the guard opens it may reach what is linked, and nothing retired.
  lemma StoreEpochs(s: State, t: nat)
    requires EpochInv(s) && t < |s.threads| && s.threads[t].pinning.Some?
    ensures EpochInv(StepThread(s, t, StorePin(t)))
  {
    var s' := StepThread(s, t, StorePin(t));
    assert GuardOk(s, s.threads[t]) && BoundOk(s, s.threads[t].reclaim);
    assert s.threads[t].held == {};
    forall o | MayReach(s', s'.threads[t], o) ensures s.place[o] == Linked && o !in s.stamp {}
    LocalEpochStep(s, s', t);
  }

  lemma CloseEpochs(s: State, t: nat)
    requires EpochInv(s) && t < |s.threads|
    ensures EpochInv(StepThread(s, t, CloseGuard(t)))
  {
    assert GuardOk(s, s.threads[t]) && BoundOk(s, s.threads[t].reclaim);
    LocalEpochStep(s, StepThread(s, t, CloseGuard(t)), t);
  }

  lemma ReachEpochs(s: State, t: nat, o: Object)
    requires EpochInv(s) && t < |s.threads| && MayReach(s, s.threads[t], o)
    ensures EpochInv(SetThread(s, t, s.threads[t].(held := s.threads[t].held + {o})))
  {
    assert GuardOk(s, s.threads[t]) && BoundOk(s, s.threads[t].reclaim);
    LocalEpochStep(s, SetThread(s, t, s.threads[t].(held := s.threads[t].held + {o})), t);
  }

  lemma GuardEpochs(s: State, e: Event)
    requires EpochInv(s) && (e.OpenGuard? || e.StorePin? || e.CloseGuard? || e.Reach?) && e.t < |s.threads|
    ensures EpochInv(Step(s, e))
  {
    match e
    case OpenGuard(t) => OpenEpochs(s, t);
    case StorePin(t) => if s.threads[t].pinning.Some? { StoreEpochs(s, t); }
    case CloseGuard(t) => CloseEpochs(s, t);
    case Reach(t, o) => if MayReach(s, s.threads[t], o) { ReachEpochs(s, t, o); }
  }

  lemma BeginEpochs(s: State, e: Event)
    requires EpochInv(s) && (e.LoadForAdvance? || e.BeginScan? || e.SweepOrphans? || e.SkipOrphans?)
    requires e.t < |s.threads|
    ensures EpochInv(Step(s, e))
  {
    var th := s.threads[e.t];
    assert BoundOk(s, th.reclaim);
    match e
    case LoadForAdvance(t) => BoundStep(s, t, th.(reclaim := RAdvance(s.global)), s.global);
    case BeginScan(t) => BoundStep(s, t, th.(reclaim := RScan(s.global, 0)), s.global);
    case SweepOrphans(t) => if th.reclaim.RSwept? { LockEpochs(s, t); }
    case SkipOrphans(t) => BoundStep(s, t, th.(reclaim := RIdle), s.global);
  }

  lemma LockEpochs(s: State, t: nat)
    requires EpochInv(s) && t < |s.threads| && s.threads[t].reclaim.RSwept?
    ensures EpochInv(StepThread(s, t, SweepOrphans(t)))
  {
    assert GuardOk(s, s.threads[t]) && BoundOk(s, s.threads[t].reclaim);
    LocalEpochStep(s, StepThread(s, t, SweepOrphans(t)), t);
  }

  // Reading slot `next` lowers the bound to the pin found there, which no object it protects beats.
  lemma ScanEpochs(s: State, t: nat)
    requires EpochInv(s) && t < |s.threads| && s.threads[t].reclaim.RScan?
    requires s.threads[t].reclaim.next < |s.threads|
    ensures EpochInv(StepReclaim(s, t))
  {
    var s' := StepReclaim(s, t);
    var RScan(min, next) := s.threads[t].reclaim;
    assert BoundOk(s, s.threads[t].reclaim) && GuardOk(s, s.threads[next]) && GuardOk(s, s.threads[t]);
    var b := Bound(s'.threads[t].reclaim).value;
    forall i, o | 0 <= i < next + 1 && o in s'.stamp && MayReach(s', s'.threads[i], o) ensures b <= s'.stamp[o] {
      assert MayReach(s, s.threads[i], o);
    }
    LocalEpochStep(s, s', t);
  }

  // The walk over the detached bag frees only below the bound.
  lemma WalkEpochs(s: State, t: nat)
    requires Inv(s) && t < |s.threads| && s.threads[t].reclaim.RFree?
    ensures EpochInv(StepReclaim(s, t))
  {
    var s' := StepReclaim(s, t);
    var th := s.threads[t];
    var RFree(safe, i) := th.reclaim;
    assert BoundOk(s, th.reclaim) && ThreadPlaces(s, t);
    if i < |th.work| {
      if th.work[i].epoch < safe { FreeEpochs(s, s', t, th.work[i].obj, safe); } else { QuietMoves(s, s', t); }
    } else {
      MovedKeeps(s, th.work, InWork(t), InBag(t));
      QuietMoves(s, s', t);
    }
  }

  lemma SweepEpochs(s: State, t: nat)
    requires Inv(s) && t < |s.threads| && s.threads[t].reclaim.RSweep?
    ensures EpochInv(StepReclaim(s, t))
  {
    var s' := StepReclaim(s, t);
    var RSweep(safe, i) := s.threads[t].reclaim;
    assert BoundOk(s, s.threads[t].reclaim);
    if i < |s.orphans| && s.orphans[i].epoch < safe { FreeEpochs(s, s', t, s.orphans[i].obj, safe); }
    else { QuietMoves(s, s', t); }
  }

  // Moving a whole list links and frees nothing.
  lemma MovedKeeps(s: State, list: seq<Retired>, from: Place, to: Place)
    requires ListOk(s, list, from) && from != Linked && to != Linked && to != Freed
    ensures var place := Moved(s.place, list, to);
            && place.Keys == s.place.Keys
            && (forall o | o in s.place :: place[o] == Linked <==> s.place[o] == Linked)
            && (forall o | o in s.place :: place[o] == Freed ==> s.place[o] == Freed)
  {
  }

  lemma DetachEpochs(s: State, t: nat)
    requires Inv(s) && t < |s.threads| && s.threads[t].reclaim.RScan? && s.threads[t].reclaim.next >= |s.threads|
    ensures EpochInv(StepReclaim(s, t))
  {
    assert BoundOk(s, s.threads[t].reclaim) && ThreadPlaces(s, t);
    MovedKeeps(s, s.threads[t].bag, InBag(t), InWork(t));
    QuietMoves(s, StepReclaim(s, t), t);
  }

  lemma AdvanceEpochs(s: State, t: nat)
    requires EpochInv(s) && t < |s.threads| && s.threads[t].reclaim.RAdvance?
    ensures EpochInv(StepReclaim(s, t))
  {
    assert GuardOk(s, s.threads[t]);
    LocalEpochStep(s, StepReclaim(s, t), t);
  }

  lemma ReclaimEpochs(s: State, t: nat)
    requires Inv(s) && t < |s.threads|
    ensures EpochInv(StepReclaim(s, t))
  {
    var r := s.threads[t].reclaim;
    match r
    case RFree(_, _) => WalkEpochs(s, t);
    case RSweep(_, _) => SweepEpochs(s, t);
    case RScan(_, next) => if next < |s.threads| { ScanEpochs(s, t); } else { DetachEpochs(s, t); }
    case RAdvance(_) => AdvanceEpochs(s, t);
    case RIdle =>
    case RSwept(_) =>
  }

  // Entries move between lists; no object becomes linked or freed.
  lemma QuietMoves(s: State, s': State, t: nat)
    requires EpochInv(s) && t < |s.threads| && |s'.threads| == |s.threads|
    requires forall i | 0 <= i < |s.threads| && i != t :: s'.threads[i] == s.threads[i]
    requires s'.threads[t].slot == s.threads[t].slot && s'.threads[t].pinning == s.threads[t].pinning
    requires s'.threads[t].guards == s.threads[t].guards && s'.threads[t].held == s.threads[t].held
    requires s'.threads[t].since == s.threads[t].since
    requires s'.stamp == s.stamp && s'.global == s.global
    requires s'.place.Keys == s.place.Keys && GoneOk(s') && s.unlinks <= s'.unlinks
    requires forall o | o in s.place && s.place[o] != Linked :: s'.place[o] != Linked
    requires forall o | o in s.gone :: o in s'.gone && s'.gone[o] == s.gone[o]
    requires forall o | o in s'.gone && o !in s.gone :: s'.gone[o] == s.unlinks
    requires forall o | o in s.place :: (s'.place[o] == Freed ==> s.place[o] == Freed)
    requires s'.threads[t].retiring.Unlinked? ==> s'.threads[t].retiring.obj !in s.stamp
    requires BoundOk(s', s'.threads[t].reclaim)
    ensures EpochInv(s')
  {
    forall i | 0 <= i < |s'.threads|
      ensures GuardOk(s', s'.threads[i])
      ensures forall o | o in s.place :: MayReach(s', s'.threads[i], o) == MayReach(s, s.threads[i], o)
    {
      assert GuardOk(s, s.threads[i]);
      ReachSame(s, s', s.threads[i], s'.threads[i]);
    }
    forall i | 0 <= i < |s'.threads| ensures BoundOk(s', s'.threads[i].reclaim) {
      if i != t { assert BoundOk(s, s.threads[i].reclaim); }
    }
  }

  // An unlink takes nothing out of the reach of a guard that was open before it.
  lemma ReachSame(s: State, s': State, th: Thread, th': Thread)
    requires GoneOk(s) && GoneOk(s') && s'.place.Keys == s.place.Keys && th'.slot == th.slot && th'.since == th.since
    requires th.slot.Some? ==> th.since <= s.unlinks
    requires forall o | o in s.place && s.place[o] != Linked :: s'.place[o] != Linked
    requires forall o | o in s.gone :: o in s'.gone && s'.gone[o] == s.gone[o]
    requires forall o | o in s'.gone && o !in s.gone :: s'.gone[o] == s.unlinks
    ensures forall o | o in s.place :: MayReach(s', th', o) == MayReach(s, th, o)
  {
  }

  // Freeing what no guard can reach leaves every guard what it could reach.
  lemma FreedReach(s: State, s': State, th: Thread, th': Thread, o: Object)
    requires s'.place == s.place[o := Freed] && s'.gone == s.gone && th'.slot == th.slot && th'.since == th.since
    requires o in s.place && s.place[o] != Linked && !MayReach(s, th, o)
    ensures forall x :: MayReach(s', th', x) == MayReach(s, th, x)
  {
  }

  lemma BoundAfter(s: State, s': State, r: Reclaim)
    requires BoundOk(s, r) && |s'.threads| == |s.threads| && s'.stamp == s.stamp && s'.global == s.global
    requires forall i, o | 0 <= i < |s.threads| && MayReach(s', s'.threads[i], o) :: MayReach(s, s.threads[i], o)
    ensures BoundOk(s', r)
  {
  }

  // The heart of the matter: an object retired before a finished scan's bound is within nobody's reach.
  lemma FreeEpochs(s: State, s': State, t: nat, o: Object, safe: nat)
    requires EpochInv(s) && t < |s.threads| && |s'.threads| == |s.threads|
    requires Bound(s.threads[t].reclaim) == Some(safe) && !s.threads[t].reclaim.RScan?
    requires s'.threads[t].reclaim == s.threads[t].reclaim
    requires forall i | 0 <= i < |s.threads| && i != t :: s'.threads[i] == s.threads[i]
    requires s'.threads[t].slot == s.threads[t].slot && s'.threads[t].pinning == s.threads[t].pinning
    requires s'.threads[t].guards == s.threads[t].guards && s'.threads[t].held == s.threads[t].held
    requires s'.threads[t].since == s.threads[t].since && s'.gone == s.gone && s'.unlinks == s.unlinks
    requires s'.threads[t].retiring == s.threads[t].retiring
    requires s'.stamp == s.stamp && s'.global == s.global && s'.place == s.place[o := Freed]
    requires o in s.stamp && s.stamp[o] < safe
    ensures EpochInv(s')
  {
    assert BoundOk(s, s.threads[t].reclaim);
    forall i | 0 <= i < |s'.threads| ensures GuardOk(s', s'.threads[i]) {
      assert GuardOk(s, s.threads[i]);
      assert !MayReach(s, s.threads[i], o);
      FreedReach(s, s', s.threads[i], s'.threads[i], o);
    }
    forall i, x | 0 <= i < |s.threads| && MayReach(s', s'.threads[i], x) ensures MayReach(s, s.threads[i], x) {
      assert !MayReach(s, s.threads[i], o);
      FreedReach(s, s', s.threads[i], s'.threads[i], o);
    }
    forall i | 0 <= i < |s'.threads| ensures BoundOk(s', s'.threads[i].reclaim) {
      BoundAfter(s, s', s.threads[i].reclaim);
    }
  }

  // The stamp is read after the unlink: no guard that can still reach the object pinned a later epoch.
  lemma StampEpochs(s: State, t: nat)
    requires EpochInv(s) && t < |s.threads| && s.threads[t].retiring.Unlinked?
    requires forall i | 0 <= i < |s.threads| :: HandOk(s, i)
    ensures EpochInv(StepThread(s, t, StampEpoch(t)))
  {
    var s' := StepThread(s, t, StampEpoch(t));
    assert HandOk(s, t);
    forall i | 0 <= i < |s'.threads|
      ensures GuardOk(s', s'.threads[i])
      ensures forall o :: MayReach(s', s'.threads[i], o) == MayReach(s, s.threads[i], o)
    {
      assert GuardOk(s, s.threads[i]);
    }
    forall i | 0 <= i < |s'.threads| ensures BoundOk(s', s'.threads[i].reclaim) {
      assert BoundOk(s, s.threads[i].reclaim);
    }
    OneRetirer(s, t);
  }

  // No other thread has the same object in hand.
  lemma OneRetirer(s: State, t: nat)
    requires t < |s.threads| && s.threads[t].retiring.Unlinked? && forall i | 0 <= i < |s.threads| :: HandOk(s, i)
    ensures forall i | 0 <= i < |s.threads| && i != t && s.threads[i].retiring.Unlinked? ::
              s.threads[i].retiring.obj != s.threads[t].retiring.obj
  {
    assert HandOk(s, t);
    forall i | 0 <= i < |s.threads| && i != t && s.threads[i].retiring.Unlinked?
      ensures s.threads[i].retiring.obj != s.threads[t].retiring.obj
    {
      assert HandOk(s, i);
      assert s.place[s.threads[i].retiring.obj] == InHand(i);
    }
  }

  lemma PublishEpochs(s: State, o: Object)
    requires EpochInv(s)
    ensures EpochInv(Step(s, Publish(o)))
  {
    var s' := Step(s, Publish(o));
    forall i | 0 <= i < |s'.threads| ensures GuardOk(s', s'.threads[i]) { assert GuardOk(s, s.threads[i]); }
    forall i | 0 <= i < |s'.threads| ensures BoundOk(s', s'.threads[i].reclaim) {
      assert BoundOk(s, s.threads[i].reclaim);
    }
  }

  lemma UnlinkEpochs(s: State, t: nat, o: Object)
    requires EpochInv(s) && t < |s.threads| && s.threads[t].retiring.NotRetiring?
    requires o in s.place && s.place[o] == Linked
    ensures EpochInv(StepThread(s, t, Unlink(t, o)))
  {
    assert BoundOk(s, s.threads[t].reclaim) && GuardOk(s, s.threads[t]);
    var s' := StepThread(s, t, Unlink(t, o));
    forall i | 0 <= i < |s.threads|
      ensures forall x | x in s.place :: MayReach(s', s'.threads[i], x) == MayReach(s, s.threads[i], x)
    {
      assert GuardOk(s, s.threads[i]);
      ReachSame(s, s', s.threads[i], s'.threads[i]);
    }
    QuietMoves(s, s', t);
  }

  lemma BagEpochs(s: State, t: nat, bagDead: bool)
    requires Inv(s) && t < |s.threads| && s.threads[t].retiring.Stamped?
    ensures EpochInv(StepBag(s, t, bagDead))
  {
    assert BoundOk(s, s.threads[t].reclaim) && ThreadPlaces(s, t);
    if !bagDead || s.lock.None? { QuietMoves(s, StepBag(s, t, bagDead), t); }
  }

  lemma HandOffEpochs(s: State, t: nat)
    requires Inv(s) && t < |s.threads| && s.threads[t].reclaim.RIdle? && s.lock.None?
    ensures EpochInv(StepThread(s, t, HandOff(t)))
  {
    assert BoundOk(s, s.threads[t].reclaim) && ThreadPlaces(s, t);
    MovedKeeps(s, s.threads[t].bag, InBag(t), Orphaned);
    QuietMoves(s, StepThread(s, t, HandOff(t)), t);
  }

  lemma RetireEpochs(s: State, e: Event)
    requires Inv(s) && (e.Unlink? || e.Bag? || e.HandOff?) && e.t < |s.threads|
    ensures EpochInv(Step(s, e))
  {
    match e
    case Unlink(t, o) =>
      if s.threads[t].retiring.NotRetiring? && o in s.place && s.place[o] == Linked { UnlinkEpochs(s, t, o); }
    case Bag(t, bagDead) => if s.threads[t].retiring.Stamped? { BagEpochs(s, t, bagDead); }
    case HandOff(t) => if s.threads[t].reclaim.RIdle? && s.lock.None? { HandOffEpochs(s, t); }
  }

  lemma StepEpochs(s: State, e: Event)
    requires Inv(s)
    ensures EpochInv(Step(s, e))
  {
    if e.Publish? { PublishEpochs(s, e.obj); }
    else if e.t < |s.threads| {
      if e.StampEpoch? {
        if s.threads[e.t].retiring.Unlinked? {
          forall i | 0 <= i < |s.threads| ensures HandOk(s, i) { assert ThreadPlaces(s, i); }
          StampEpochs(s, e.t);
        }
      }
      else if e.ReclaimStep? { ReclaimEpochs(s, e.t); }
      else if e.Unlink? || e.Bag? || e.HandOff? { RetireEpochs(s, e); }
      else if e.OpenGuard? || e.StorePin? || e.CloseGuard? || e.Reach? { GuardEpochs(s, e); }
      else { BeginEpochs(s, e); }
    }
  }

  // ---------- preservation: places ----------

  // A list whose place gains and loses nobody.
  lemma ListKept(s: State, s': State, list: seq<Retired>, p: Place)
    requires ListOk(s, list, p)
    requires forall o | o in s.place && s.place[o] == p :: o in s'.place && s'.place[o] == p
    requires forall o | o in s'.place && s'.place[o] == p :: o in s.place && s.place[o] == p
    requires forall o | o in s.stamp :: o in s'.stamp && s'.stamp[o] == s.stamp[o]
    ensures ListOk(s', list, p)
  {}

  // A whole list moves behind another one.
  lemma ListMoved(s: State, s': State, list: seq<Retired>, from: Place, onto: seq<Retired>, to: Place)
    requires from != to && ListOk(s, list, from) && ListOk(s, onto, to)
    requires s'.place == Moved(s.place, list, to) && s'.stamp == s.stamp
    ensures ListOk(s', onto + list, to) && ListOk(s', [], from)
    ensures forall o | o in s.place && s.place[o] != from :: s'.place[o] == s.place[o]
    ensures s'.place.Keys == s.place.Keys
  {
    var all := onto + list;
    forall o | o in s'.place && s'.place[o] == to ensures exists i :: 0 <= i < |all| && all[i].obj == o {
      if s.place[o] == to {
        var i :| 0 <= i < |onto| && onto[i].obj == o;
        assert all[i].obj == o;
      } else {
        var i :| 0 <= i < |list| && list[i].obj == o;
        assert all[|onto| + i].obj == o;
      }
    }
    forall i | 0 <= i < |all|
      ensures all[i].obj in s'.place && s'.place[all[i].obj] == to
      ensures all[i].obj in s'.stamp && s'.stamp[all[i].obj] == all[i].epoch
    {
      if i >= |onto| { assert all[i] == list[i - |onto|]; }
    }
    forall i, j | 0 <= i < j < |all| ensures all[i].obj != all[j].obj {
      if i < |onto| <= j { assert all[j] == list[j - |onto|]; }
    }
  }

  // One object joins a list from a place that was its own.
  lemma ListGrown(s: State, s': State, list: seq<Retired>, r: Retired, to: Place)
    requires ListOk(s, list, to) && r.obj in s.place && s.place[r.obj] != to
    requires r.obj in s.stamp && s.stamp[r.obj] == r.epoch
    requires s'.place == s.place[r.obj := to] && s'.stamp == s.stamp
    ensures ListOk(s', list + [r], to)
  {
    var all := list + [r];
    forall o | o in s'.place && s'.place[o] == to ensures exists i :: 0 <= i < |all| && all[i].obj == o {
      if o == r.obj { assert all[|list|].obj == o; }
      else {
        var i :| 0 <= i < |list| && list[i].obj == o;
        assert all[i].obj == o;
      }
    }
  }

  // One object leaves a list.
  lemma ListShrunk(s: State, s': State, list: seq<Retired>, i: nat, p: Place)
    requires ListOk(s, list, p) && i < |list| && p != Freed
    requires s'.place == s.place[list[i].obj := Freed] && s'.stamp == s.stamp
    ensures ListOk(s', Remove(list, i), p)
  {
    var less := Remove(list, i);
    forall k | 0 <= k < |less| ensures less[k] == list[if k < i then k else k + 1] {}
    forall o | o in s'.place && s'.place[o] == p ensures exists k :: 0 <= k < |less| && less[k].obj == o {
      var k :| 0 <= k < |list| && list[k].obj == o;
      assert k != i;
      assert less[if k < i then k else k - 1].obj == o;
    }
  }

  // The places of a thread that did not move while only other places changed.
  lemma OtherPlaces(s: State, s': State, t: nat)
    requires t < |s.threads| && t < |s'.threads| && ThreadPlaces(s, t)
    requires s'.threads[t].bag == s.threads[t].bag && s'.threads[t].work == s.threads[t].work
    requires s'.threads[t].retiring == s.threads[t].retiring
    requires s'.threads[t].reclaim.RFree? || s'.threads[t].work == []
    requires forall o | o in s.place && s.place[o] in {InBag(t), InWork(t), InHand(t)} ::
               o in s'.place && s'.place[o] == s.place[o]
    requires forall o | o in s'.place && s'.place[o] in {InBag(t), InWork(t), InHand(t)} ::
               o in s.place && s.place[o] == s'.place[o]
    requires forall o | o in s.stamp :: o in s'.stamp && s'.stamp[o] == s.stamp[o]
    ensures ThreadPlaces(s', t)
  {
    ListKept(s, s', s.threads[t].bag, InBag(t));
    ListKept(s, s', s.threads[t].work, InWork(t));
  }

  // A step that moves no entry.
  lemma StillPlaces(s: State, s': State, t: nat)
    requires PlaceInv(s) && t < |s.threads| && |s'.threads| == |s.threads|
    requires forall i | 0 <= i < |s.threads| && i != t :: s'.threads[i] == s.threads[i]
    requires s'.threads[t].bag == s.threads[t].bag && s'.threads[t].work == s.threads[t].work
    requires s'.threads[t].retiring == s.threads[t].retiring
    requires s'.threads[t].reclaim.RFree? || s'.threads[t].work == []
    requires s'.place == s.place && s'.stamp == s.stamp && s'.orphans == s.orphans && s'.freed == s.freed
    ensures PlaceInv(s')
  {
    forall i | 0 <= i < |s'.threads| ensures ThreadPlaces(s', i) {
      assert ThreadPlaces(s, i);
      OtherPlaces(s, s', i);
    }
    ListKept(s, s', s.orphans, Orphaned);
  }

  lemma PublishPlaces(s: State, o: Object)
    requires PlaceInv(s)
    ensures PlaceInv(Step(s, Publish(o)))
  {
    var s' := Step(s, Publish(o));
    forall i | 0 <= i < |s'.threads| ensures ThreadPlaces(s', i) {
      assert ThreadPlaces(s, i);
      OtherPlaces(s, s', i);
    }
    ListKept(s, s', s.orphans, Orphaned);
  }

  lemma UnlinkPlaces(s: State, t: nat, o: Object)
    requires PlaceInv(s) && t < |s.threads| && s.threads[t].retiring.NotRetiring?
    requires o in s.place && s.place[o] == Linked
    ensures PlaceInv(StepThread(s, t, Unlink(t, o)))
  {
    var s' := StepThread(s, t, Unlink(t, o));
    forall i | 0 <= i < |s'.threads| ensures ThreadPlaces(s', i) {
      assert ThreadPlaces(s, i);
      if i != t { OtherPlaces(s, s', i); }
      else {
        ListKept(s, s', s.threads[t].bag, InBag(t));
        ListKept(s, s', s.threads[t].work, InWork(t));
      }
    }
    ListKept(s, s', s.orphans, Orphaned);
  }

  lemma StampPlaces(s: State, t: nat)
    requires PlaceInv(s) && StampsOk(s) && t < |s.threads| && s.threads[t].retiring.Unlinked?
    ensures PlaceInv(StepThread(s, t, StampEpoch(t)))
  {
    var s' := StepThread(s, t, StampEpoch(t));
    assert ThreadPlaces(s, t);
    forall i | 0 <= i < |s'.threads| ensures ThreadPlaces(s', i) {
      assert ThreadPlaces(s, i);
      if i != t { OtherPlaces(s, s', i); }
      else {
        ListKept(s, s', s.threads[t].bag, InBag(t));
        ListKept(s, s', s.threads[t].work, InWork(t));
      }
    }
    ListKept(s, s', s.orphans, Orphaned);
  }

  // RetirePtr on a thread whose bag is gone: straight to the orphans.
  lemma LateBagPlaces(s: State, t: nat)
    requires PlaceInv(s) && t < |s.threads| && s.threads[t].retiring.Stamped? && s.lock.None?
    ensures PlaceInv(StepBag(s, t, true))
  {
    var s' := StepBag(s, t, true);
    assert ThreadPlaces(s, t);
    var Stamped(o, e) := s.threads[t].retiring;
    ListGrown(s, s', s.orphans, Retired(o, e), Orphaned);
    forall i | 0 <= i < |s'.threads| ensures ThreadPlaces(s', i) {
      assert ThreadPlaces(s, i);
      if i != t { OtherPlaces(s, s', i); }
      else {
        ListKept(s, s', s.threads[t].bag, InBag(t));
        ListKept(s, s', s.threads[t].work, InWork(t));
      }
    }
  }

  lemma OwnBagPlaces(s: State, t: nat)
    requires PlaceInv(s) && t < |s.threads| && s.threads[t].retiring.Stamped?
    ensures PlaceInv(StepBag(s, t, false))
  {
    var s' := StepBag(s, t, false);
    assert ThreadPlaces(s, t);
    var Stamped(o, e) := s.threads[t].retiring;
    ListGrown(s, s', s.threads[t].bag, Retired(o, e), InBag(t));
    ListKept(s, s', s.orphans, Orphaned);
    forall i | 0 <= i < |s'.threads| ensures ThreadPlaces(s', i) {
      assert ThreadPlaces(s, i);
      if i != t { OtherPlaces(s, s', i); } else { ListKept(s, s', s.threads[t].work, InWork(t)); }
    }
  }

  lemma BagPlaces(s: State, t: nat, bagDead: bool)
    requires PlaceInv(s) && t < |s.threads| && s.threads[t].retiring.Stamped?
    ensures PlaceInv(StepBag(s, t, bagDead))
  {
    if !bagDead { OwnBagPlaces(s, t); } else if s.lock.None? { LateBagPlaces(s, t); }
  }

  lemma HandOffPlaces(s: State, t: nat)
    requires PlaceInv(s) && t < |s.threads|
    ensures PlaceInv(StepThread(s, t, HandOff(t)))
  {
    var s' := StepThread(s, t, HandOff(t));
    if s' == s { return; }
    assert ThreadPlaces(s, t);
    ListMoved(s, s', s.threads[t].bag, InBag(t), s.orphans, Orphaned);
    forall i | 0 <= i < |s'.threads| ensures ThreadPlaces(s', i) {
      assert ThreadPlaces(s, i);
      if i != t { OtherPlaces(s, s', i); }
      else { ListKept(s, s', s.threads[t].work, InWork(t)); }
    }
  }

  lemma DetachPlaces(s: State, t: nat)
    requires PlaceInv(s) && t < |s.threads| && s.threads[t].reclaim.RScan?
    requires s.threads[t].reclaim.next >= |s.threads|
    ensures PlaceInv(StepReclaim(s, t))
  {
    var s' := StepReclaim(s, t);
    assert ThreadPlaces(s, t);
    ListMoved(s, s', s.threads[t].bag, InBag(t), [], InWork(t));
    assert [] + s.threads[t].bag == s.threads[t].bag;
    forall i | 0 <= i < |s'.threads| ensures ThreadPlaces(s', i) {
      assert ThreadPlaces(s, i);
      if i != t { OtherPlaces(s, s', i); }
    }
    ListKept(s, s', s.orphans, Orphaned);
  }

  lemma ReattachPlaces(s: State, t: nat)
    requires PlaceInv(s) && t < |s.threads| && s.threads[t].reclaim.RFree?
    requires s.threads[t].reclaim.i >= |s.threads[t].work|
    ensures PlaceInv(StepReclaim(s, t))
  {
    var s' := StepReclaim(s, t);
    assert ThreadPlaces(s, t);
    ListMoved(s, s', s.threads[t].work, InWork(t), s.threads[t].bag, InBag(t));
    forall i | 0 <= i < |s'.threads| ensures ThreadPlaces(s', i) {
      assert ThreadPlaces(s, i);
      if i != t { OtherPlaces(s, s', i); }
    }
    ListKept(s, s', s.orphans, Orphaned);
  }

  lemma FreeOwnPlaces(s: State, t: nat)
    requires PlaceInv(s) && t < |s.threads| && s.threads[t].reclaim.RFree?
    requires var RFree(safe, i) := s.threads[t].reclaim;
             i < |s.threads[t].work| && s.threads[t].work[i].epoch < safe
    ensures PlaceInv(StepReclaim(s, t))
  {
    var s' := StepReclaim(s, t);
    var i := s.threads[t].reclaim.i;
    assert ThreadPlaces(s, t);
    ListShrunk(s, s', s.threads[t].work, i, InWork(t));
    ListKept(s, s', s.threads[t].bag, InBag(t));
    forall k | 0 <= k < |s'.threads| ensures ThreadPlaces(s', k) {
      assert ThreadPlaces(s, k);
      if k != t { OtherPlaces(s, s', k); }
    }
    ListKept(s, s', s.orphans, Orphaned);
  }

  lemma FreeOrphanPlaces(s: State, t: nat)
    requires PlaceInv(s) && t < |s.threads| && s.threads[t].reclaim.RSweep?
    requires var RSweep(safe, i) := s.threads[t].reclaim; i < |s.orphans| && s.orphans[i].epoch < safe
    ensures PlaceInv(StepReclaim(s, t))
  {
    var s' := StepReclaim(s, t);
    ListShrunk(s, s', s.orphans, s.threads[t].reclaim.i, Orphaned);
    forall k | 0 <= k < |s'.threads| ensures ThreadPlaces(s', k) {
      assert ThreadPlaces(s, k);
      OtherPlaces(s, s', k);
    }
  }

  lemma ReclaimPlaces(s: State, t: nat)
    requires PlaceInv(s) && t < |s.threads|
    ensures PlaceInv(StepReclaim(s, t))
  {
    var th := s.threads[t];
    var r := th.reclaim;
    assert ThreadPlaces(s, t);
    if r.RScan? && r.next >= |s.threads| { DetachPlaces(s, t); }
    else if r.RFree? && r.i >= |th.work| { ReattachPlaces(s, t); }
    else if r.RFree? && th.work[r.i].epoch < r.safe { FreeOwnPlaces(s, t); }
    else if r.RSweep? && r.i < |s.orphans| && s.orphans[r.i].epoch < r.safe { FreeOrphanPlaces(s, t); }
    else if StepReclaim(s, t) != s { StillPlaces(s, StepReclaim(s, t), t); }
  }

  // The steps of guards and the first ones of a reclaim move no entry.
  lemma GuardPlaces(s: State, e: Event)
    requires PlaceInv(s) && (e.OpenGuard? || e.StorePin? || e.CloseGuard? || e.Reach?) && e.t < |s.threads|
    ensures PlaceInv(StepThread(s, e.t, e))
  {
    GuardMoves(s, e);
    assert ThreadPlaces(s, e.t);
    StillPlaces(s, StepThread(s, e.t, e), e.t);
  }

  lemma GuardMoves(s: State, e: Event)
    requires (e.OpenGuard? || e.StorePin? || e.CloseGuard? || e.Reach?) && e.t < |s.threads|
    ensures var th, th' := s.threads[e.t], StepThread(s, e.t, e).threads[e.t];
            && StepThread(s, e.t, e) == SetThread(s, e.t, th')
            && th'.bag == th.bag && th'.work == th.work && th'.retiring == th.retiring && th'.reclaim == th.reclaim
  {
    assert s.threads == s.threads[e.t := s.threads[e.t]];
  }

  lemma BeginPlaces(s: State, e: Event)
    requires PlaceInv(s) && (e.LoadForAdvance? || e.BeginScan? || e.SweepOrphans? || e.SkipOrphans?) && e.t < |s.threads|
    ensures PlaceInv(StepThread(s, e.t, e))
  {
    assert ThreadPlaces(s, e.t);
    StillPlaces(s, StepThread(s, e.t, e), e.t);
  }

  lemma RetirePlaces(s: State, e: Event)
    requires PlaceInv(s) && StampsOk(s) && (e.Unlink? || e.StampEpoch? || e.Bag? || e.HandOff?) && e.t < |s.threads|
    ensures PlaceInv(StepThread(s, e.t, e))
  {
    var th := s.threads[e.t];
    match e
    case Unlink(t, o) => if th.retiring.NotRetiring? && o in s.place && s.place[o] == Linked { UnlinkPlaces(s, t, o); }
    case StampEpoch(t) => if th.retiring.Unlinked? { StampPlaces(s, t); }
    case Bag(t, bagDead) => if th.retiring.Stamped? { BagPlaces(s, t, bagDead); }
    case HandOff(t) => if th.reclaim.RIdle? && s.lock.None? { HandOffPlaces(s, t); }
  }

  lemma StepPlaces(s: State, e: Event)
    requires PlaceInv(s) && StampsOk(s)
    ensures PlaceInv(Step(s, e))
  {
    if e.Publish? { PublishPlaces(s, e.obj); }
    else if e.t < |s.threads| {
      if e.ReclaimStep? { ReclaimPlaces(s, e.t); }
      else if e.Unlink? || e.StampEpoch? || e.Bag? || e.HandOff? { RetirePlaces(s, e); }
      else if e.OpenGuard? || e.StorePin? || e.CloseGuard? || e.Reach? { GuardPlaces(s, e); }
      else { BeginPlaces(s, e); }
    }
  }

  // ---------- whole runs ----------

  /** Every step of every thread keeps both halves of the invariant. */
  lemma StepInv(s: State, e: Event)
    requires Inv(s)
    ensures Inv(Step(s, e))
  {
    StepEpochs(s, e);
    StepPlaces(s, e);
  }

  lemma {:induction false} RunInv(threads: nat, events: seq<Event>)
    ensures Inv(Run(Init(threads), events))
  {
    if events != [] {
      RunInv(threads, events[..|events| - 1]);
      StepInv(Run(Init(threads), events[..|events| - 1]), events[|events| - 1]);
    }
  }

  /** Safety: an object reached under a guard that is still open has not been freed, and neither has
      any object that was linked at some time since the guard opened. */
  lemma NoUseAfterFree(threads: nat, events: seq<Event>, t: nat, o: Object)
    requires var s := Run(Init(threads), events);
             t < |s.threads| && (o in s.threads[t].held || MayReach(s, s.threads[t], o))
    ensures o !in Run(Init(threads), events).freed
  {
    RunInv(threads, events);
    var s := Run(Init(threads), events);
    assert GuardOk(s, s.threads[t]);
  }

  /** A safe epoch stays good for as long as its owner keeps it, whatever is retired or orphaned
      meanwhile: nobody can reach, or has reached, an object retired before it. */
  lemma SafeEpochStaysValid(threads: nat, events: seq<Event>, t: nat, o: Object, holder: nat)
    requires var s := Run(Init(threads), events);
             && t < |s.threads| && holder < |s.threads|
             && Bound(s.threads[t].reclaim).Some? && !s.threads[t].reclaim.RScan?
             && o in s.stamp && s.stamp[o] < Bound(s.threads[t].reclaim).value
    ensures var s := Run(Init(threads), events);
            o !in s.threads[holder].held && !MayReach(s, s.threads[holder], o)
  {
    RunInv(threads, events);
    var s := Run(Init(threads), events);
    assert BoundOk(s, s.threads[t].reclaim) && GuardOk(s, s.threads[holder]);
  }

  // How often an object occurs in a list.
  function Count(list: seq<Retired>, o: Object): nat {
    |set i | 0 <= i < |list| && list[i].obj == o|
  }

  lemma CountOne(s: State, list: seq<Retired>, p: Place, o: Object)
    requires ListOk(s, list, p) && o in s.place
    ensures Count(list, o) == if s.place[o] == p then 1 else 0
  {
    var hits := set i | 0 <= i < |list| && list[i].obj == o;
    if s.place[o] == p {
      var i :| 0 <= i < |list| && list[i].obj == o;
      assert hits == {i};
    } else {
      assert hits == {};
    }
  }

  // The object sits where `place` says, once, and nowhere else.
  predicate Accounted(s: State, o: Object)
    requires o in s.place
  {
    && Count(s.orphans, o) == (if s.place[o] == Orphaned then 1 else 0)
    && forall t | 0 <= t < |s.threads| ::
         && Count(s.threads[t].bag, o) == (if s.place[o] == InBag(t) then 1 else 0)
         && Count(s.threads[t].work, o) == (if s.place[o] == InWork(t) then 1 else 0)
  }

  lemma AccountedOne(s: State, o: Object)
    requires PlaceInv(s) && o in s.place
    ensures Accounted(s, o)
  {
    CountOne(s, s.orphans, Orphaned, o);
    forall t | 0 <= t < |s.threads|
      ensures Count(s.threads[t].bag, o) == (if s.place[o] == InBag(t) then 1 else 0)
      ensures Count(s.threads[t].work, o) == (if s.place[o] == InWork(t) then 1 else 0)
    {
      assert ThreadPlaces(s, t);
      CountOne(s, s.threads[t].bag, InBag(t), o);
      CountOne(s, s.threads[t].work, InWork(t), o);
    }
  }

  /** Nothing is freed twice, and nothing retired is lost: a stamped object that is not freed sits
      exactly once in exactly one bag, detached bag, orphan list or retiring hand. */
  lemma NoDoubleFreeNoLoss(threads: nat, events: seq<Event>)
    ensures var s := Run(Init(threads), events);
            && (forall i, j | 0 <= i < j < |s.freed| :: s.freed[i] != s.freed[j])
            && (forall o | o in s.stamp :: o in s.place && s.place[o] != Linked)
            && (forall o | o in s.place && s.place[o] == Freed :: o in s.freed)
            && (forall o | o in s.place :: Accounted(s, o))
  {
    RunInv(threads, events);
    var s := Run(Init(threads), events);
    forall o | o in s.place ensures Accounted(s, o) { AccountedOne(s, o); }
  }

  // ---------- the orphan store ----------

  function Expired(list: seq<Retired>, safe: nat): seq<Retired> {
    if list == [] then []
    else
      var r := list[|list| - 1];
      Expired(list[..|list| - 1], safe) + if r.epoch < safe then [r] else []
  }

  function Protected(list: seq<Retired>, safe: nat): seq<Retired> {
    if list == [] then []
    else
      var r := list[|list| - 1];
      Protected(list[..|list| - 1], safe) + if r.epoch < safe then [] else [r]
  }

  lemma {:induction false} SplitIsPartition(list: seq<Retired>, safe: nat)
    ensures multiset(list) == multiset(Expired(list, safe)) + multiset(Protected(list, safe))
    ensures forall r | r in Expired(list, safe) :: r.epoch < safe
    ensures forall r | r in Protected(list, safe) :: r.epoch >= safe
  {
    if list != [] {
      var front, last := list[..|list| - 1], list[|list| - 1];
      SplitIsPartition(front, safe);
      assert list == front + [last];
      assert multiset(list) == multiset(front) + multiset{last};
    }
  }

  // ---------- a thread left alone ----------

  function Objects(list: seq<Retired>): seq<Object> {
    seq(|list|, i requires 0 <= i < |list| => list[i].obj)
  }

  // Thread t takes n steps of its reclaim pass and nobody else moves.
  function ReclaimFor(s: State, t: nat, n: nat): (f: State)
    requires t < |s.threads|
    ensures |f.threads| == |s.threads|
    decreases n
  {
    if n == 0 then s else ReclaimFor(StepReclaim(s, t), t, n - 1)
  }

  lemma {:induction false} ReclaimForSum(s: State, t: nat, m: nat, n: nat)
    requires t < |s.threads|
    ensures ReclaimFor(s, t, m + n) == ReclaimFor(ReclaimFor(s, t, m), t, n)
    decreases m
  {
    hide StepReclaim;
    if m > 0 {
      var s' := StepReclaim(s, t);
      ReclaimForSum(s', t, m - 1, n);
      assert ReclaimFor(s, t, m) == ReclaimFor(s', t, m - 1);
      assert ReclaimFor(s, t, m + n) == ReclaimFor(s', t, m + n - 1) == ReclaimFor(s', t, (m - 1) + n);
    }
  }

  // The least epoch that a guard has pinned, if it is below the given one.
  function LeastPin(threads: seq<Thread>, bound: nat): nat {
    if threads == [] then bound
    else
      var e := threads[0].slot;
      LeastPin(threads[1..], if e.Some? && e.value < bound then e.value else bound)
  }

  /** LeastPin is the minimum it is named after. */
  lemma {:induction false} LeastPinIsMinimum(threads: seq<Thread>, bound: nat)
    ensures LeastPin(threads, bound) <= bound
    ensures forall i | 0 <= i < |threads| && threads[i].slot.Some? :: LeastPin(threads, bound) <= threads[i].slot.value
    ensures LeastPin(threads, bound) == bound
            || exists i :: 0 <= i < |threads| && threads[i].slot == Some(LeastPin(threads, bound))
  {
    if threads != [] {
      var e := threads[0].slot;
      var next := if e.Some? && e.value < bound then e.value else bound;
      LeastPinIsMinimum(threads[1..], next);
      if LeastPin(threads[1..], next) != next {
        var i :| 0 <= i < |threads[1..]| && threads[1..][i].slot == Some(LeastPin(threads, bound));
        assert threads[i + 1].slot == Some(LeastPin(threads, bound));
      }
    }
  }

  lemma ScansNext(s: State, t: nat, next: nat, min: nat)
    requires t < |s.threads| && next < |s.threads| && s.threads[t].reclaim == RScan(min, next)
    ensures var e := s.threads[next].slot;
            StepReclaim(s, t) ==
            SetThread(s, t, s.threads[t].(reclaim := RScan(if e.Some? && e.value < min then e.value else min, next + 1)))
  {
  }

  lemma SetTwice(s: State, t: nat, a: Thread, b: Thread)
    requires t < |s.threads|
    ensures SetThread(SetThread(s, t, a), t, b) == SetThread(s, t, b)
  {
    assert s.threads[t := a][t := b] == s.threads[t := b];
  }

  lemma {:induction false} ScanAlone(s: State, t: nat, next: nat, min: nat) returns (n: nat)
    requires t < |s.threads| && next <= |s.threads| && s.threads[t].reclaim == RScan(min, next)
    ensures ReclaimFor(s, t, n) ==
            SetThread(s, t, s.threads[t].(reclaim := RScan(LeastPin(s.threads[next..], min), |s.threads|)))
    decreases |s.threads| - next
  {
    if next == |s.threads| {
      n := 0;
      assert s.threads == s.threads[t := s.threads[t]];
    } else {
      ScansNext(s, t, next, min);
      hide StepReclaim;
      var e := s.threads[next].slot;
      var min' := if e.Some? && e.value < min then e.value else min;
      var th := s.threads[t].(reclaim := RScan(min', next + 1));
      var s' := SetThread(s, t, th);
      var m := ScanAlone(s', t, next + 1, min');
      n := m + 1;
      assert ReclaimFor(s, t, n) == ReclaimFor(s', t, m);
      SameSlots(s.threads[next + 1..], s'.threads[next + 1..], min');
      assert s.threads[next..][1..] == s.threads[next + 1..];
      SetTwice(s, t, th, th.(reclaim := RScan(LeastPin(s.threads[next..], min), |s.threads|)));
    }
  }

  lemma {:induction false} SameSlots(a: seq<Thread>, b: seq<Thread>, bound: nat)
    requires |a| == |b| && forall i | 0 <= i < |a| :: a[i].slot == b[i].slot
    ensures LeastPin(a, bound) == LeastPin(b, bound)
  {
    if a != [] {
      var e := a[0].slot;
      SameSlots(a[1..], b[1..], if e.Some? && e.value < bound then e.value else bound);
    }
  }

  lemma {:induction false} SplitConcat(a: seq<Retired>, b: seq<Retired>, safe: nat)
    ensures Expired(a + b, safe) == Expired(a, safe) + Expired(b, safe)
    ensures Protected(a + b, safe) == Protected(a, safe) + Protected(b, safe)
  {
    if b == [] { assert a + b == a; }
    else {
      var front, last := b[..|b| - 1], b[|b| - 1];
      SplitConcat(a, front, safe);
      assert (a + b)[..|a + b| - 1] == a + front && (a + b)[|a + b| - 1] == last;
    }
  }

  lemma SplitFirst(list: seq<Retired>, safe: nat)
    requires list != []
    ensures Expired(list, safe) == (if list[0].epoch < safe then [list[0]] else []) + Expired(list[1..], safe)
    ensures Protected(list, safe) == (if list[0].epoch < safe then [] else [list[0]]) + Protected(list[1..], safe)
  {
    assert list == [list[0]] + list[1..] && [list[0]][..0] == [];
    SplitConcat([list[0]], list[1..], safe);
    assert Expired([list[0]], safe) == Expired([list[0]][..0], safe) + if list[0].epoch < safe then [list[0]] else [];
    assert Protected([list[0]], safe) == Protected([list[0]][..0], safe) + if list[0].epoch < safe then [] else [list[0]];
  }

  // What a finished walk from position i on leaves: the entries before i, the protected ones behind, and the
  // expired ones freed in order.
  predicate Walked(s: State, t: nat, safe: nat, i: nat, f: State)
    requires t < |s.threads| && i <= |s.threads[t].work|
  {
    var th, work := s.threads[t], s.threads[t].work;
    && f.threads == s.threads[t := th.(reclaim := RSwept(safe), work := [],
                                       bag := th.bag + (work[..i] + Protected(work[i..], safe)))]
    && f.freed == s.freed + Objects(Expired(work[i..], safe))
    && f.orphans == s.orphans && f.global == s.global && f.lock == s.lock
  }

  lemma WalkFrees(s: State, t: nat, safe: nat, i: nat, f: State)
    requires t < |s.threads| && s.threads[t].reclaim == RFree(safe, i) && i < |s.threads[t].work|
    requires s.threads[t].work[i].epoch < safe
    ensures i <= |StepReclaim(s, t).threads[t].work| && StepReclaim(s, t).threads[t].reclaim == RFree(safe, i)
    ensures |StepReclaim(s, t).threads[t].work| == |s.threads[t].work| - 1
    ensures Walked(StepReclaim(s, t), t, safe, i, f) ==> Walked(s, t, safe, i, f)
  {
    var work := s.threads[t].work;
    var s' := StepReclaim(s, t);
    SplitFirst(work[i..], safe);
    assert work[i..][1..] == work[i + 1..];
    assert s'.threads[t].work[..i] == work[..i] && s'.threads[t].work[i..] == work[i + 1..];
    var later := Objects(Expired(work[i + 1..], safe));
    assert Objects(Expired(work[i..], safe)) == [work[i].obj] + later;
    assert (s.freed + [work[i].obj]) + later == s.freed + ([work[i].obj] + later);
    var last := s.threads[t].(reclaim := RSwept(safe), work := [],
                              bag := s.threads[t].bag + (work[..i] + Protected(work[i + 1..], safe)));
    assert Protected(work[i..], safe) == Protected(work[i + 1..], safe);
    assert s'.threads[t := last] == s.threads[t := last];
  }

  lemma WalkKeeps(s: State, t: nat, safe: nat, i: nat, f: State)
    requires t < |s.threads| && s.threads[t].reclaim == RFree(safe, i) && i < |s.threads[t].work|
    requires s.threads[t].work[i].epoch >= safe
    ensures StepReclaim(s, t) == SetThread(s, t, s.threads[t].(reclaim := RFree(safe, i + 1)))
    ensures Walked(StepReclaim(s, t), t, safe, i + 1, f) ==> Walked(s, t, safe, i, f)
  {
    var work := s.threads[t].work;
    SplitFirst(work[i..], safe);
    assert work[i..][1..] == work[i + 1..];
    assert work[..i] + ([work[i]] + Protected(work[i + 1..], safe)) == work[..i + 1] + Protected(work[i + 1..], safe);
  }

  lemma WalkStops(s: State, t: nat, safe: nat)
    requires t < |s.threads| && s.threads[t].reclaim == RFree(safe, |s.threads[t].work|)
    ensures Walked(s, t, safe, |s.threads[t].work|, StepReclaim(s, t))
  {
    var work := s.threads[t].work;
    assert work[|work|..] == [] && work[..|work|] + [] == work;
  }

  lemma {:induction false} FreeAlone(s: State, t: nat, safe: nat, i: nat) returns (n: nat)
    requires t < |s.threads| && s.threads[t].reclaim == RFree(safe, i) && i <= |s.threads[t].work|
    ensures Walked(s, t, safe, i, ReclaimFor(s, t, n))
    decreases |s.threads[t].work| - i
  {
    hide StepReclaim, Walked;
    var s' := StepReclaim(s, t);
    var m: nat;
    if i == |s.threads[t].work| {
      WalkStops(s, t, safe);
      m := 0;
    } else if s.threads[t].work[i].epoch < safe {
      WalkFrees(s, t, safe, i, s);
      m := FreeAlone(s', t, safe, i);
      WalkFrees(s, t, safe, i, ReclaimFor(s', t, m));
    } else {
      WalkKeeps(s, t, safe, i, s);
      m := FreeAlone(s', t, safe, i + 1);
      WalkKeeps(s, t, safe, i, ReclaimFor(s', t, m));
    }
    n := m + 1;
    assert ReclaimFor(s, t, n) == ReclaimFor(s', t, m);
  }

  // The same for the sweep of the orphans, under the lock.
  predicate Swept(s: State, t: nat, safe: nat, i: nat, f: State)
    requires t < |s.threads| && i <= |s.orphans|
  {
    && f.threads == s.threads[t := s.threads[t].(reclaim := RIdle)]
    && f.orphans == s.orphans[..i] + Protected(s.orphans[i..], safe)
    && f.freed == s.freed + Objects(Expired(s.orphans[i..], safe))
    && f.global == s.global && f.lock == None
  }

  lemma SweepFrees(s: State, t: nat, safe: nat, i: nat, f: State)
    requires t < |s.threads| && s.threads[t].reclaim == RSweep(safe, i) && i < |s.orphans| && s.orphans[i].epoch < safe
    ensures var s' := StepReclaim(s, t);
            && |s'.orphans| == |s.orphans| - 1 && i <= |s'.orphans| && s'.threads == s.threads
            && (Swept(s', t, safe, i, f) ==> Swept(s, t, safe, i, f))
  {
    var s' := StepReclaim(s, t);
    var orphans := s.orphans;
    SplitFirst(orphans[i..], safe);
    assert orphans[i..][1..] == orphans[i + 1..];
    assert s'.orphans[..i] == orphans[..i] && s'.orphans[i..] == orphans[i + 1..];
    var later := Objects(Expired(orphans[i + 1..], safe));
    assert Objects(Expired(orphans[i..], safe)) == [orphans[i].obj] + later;
    assert (s.freed + [orphans[i].obj]) + later == s.freed + ([orphans[i].obj] + later);
    assert Protected(orphans[i..], safe) == Protected(orphans[i + 1..], safe);
  }

  lemma SweepKeeps(s: State, t: nat, safe: nat, i: nat, f: State)
    requires t < |s.threads| && s.threads[t].reclaim == RSweep(safe, i) && i < |s.orphans| && s.orphans[i].epoch >= safe
    ensures StepReclaim(s, t) == SetThread(s, t, s.threads[t].(reclaim := RSweep(safe, i + 1)))
    ensures Swept(StepReclaim(s, t), t, safe, i + 1, f) ==> Swept(s, t, safe, i, f)
  {
    var orphans := s.orphans;
    SplitFirst(orphans[i..], safe);
    assert orphans[i..][1..] == orphans[i + 1..];
    assert orphans[..i] + ([orphans[i]] + Protected(orphans[i + 1..], safe)) ==
           orphans[..i + 1] + Protected(orphans[i + 1..], safe);
  }

  lemma SweepStops(s: State, t: nat, safe: nat)
    requires t < |s.threads| && s.threads[t].reclaim == RSweep(safe, |s.orphans|)
    ensures Swept(s, t, safe, |s.orphans|, StepReclaim(s, t))
  {
    assert s.orphans[|s.orphans|..] == [] && s.orphans[..|s.orphans|] + [] == s.orphans;
  }

  lemma {:induction false} SweepAlone(s: State, t: nat, safe: nat, i: nat) returns (n: nat)
    requires t < |s.threads| && s.threads[t].reclaim == RSweep(safe, i) && i <= |s.orphans|
    ensures Swept(s, t, safe, i, ReclaimFor(s, t, n))
    decreases |s.orphans| - i
  {
    hide StepReclaim, Swept;
    var s' := StepReclaim(s, t);
    var m: nat;
    if i == |s.orphans| {
      SweepStops(s, t, safe);
      m := 0;
    } else if s.orphans[i].epoch < safe {
      SweepFrees(s, t, safe, i, s);
      m := SweepAlone(s', t, safe, i);
      SweepFrees(s, t, safe, i, ReclaimFor(s', t, m));
    } else {
      SweepKeeps(s, t, safe, i, s);
      m := SweepAlone(s', t, safe, i + 1);
      SweepKeeps(s, t, safe, i, ReclaimFor(s', t, m));
    }
    n := m + 1;
    assert ReclaimFor(s, t, n) == ReclaimFor(s', t, m);
  }

  /** AdvanceEpoch left alone raises the epoch by one. */
  lemma AdvanceAlone(s: State, t: nat)
    requires t < |s.threads| && s.threads[t].reclaim.RIdle?
    ensures StepReclaim(Step(s, LoadForAdvance(t)), t) == s.(global := s.global + 1)
  {
    assert s.threads[t := s.threads[t].(reclaim := RAdvance(s.global))][t := s.threads[t]] == s.threads;
  }

  /**
    A reclaim pass over the own bag, left alone: it frees, in order, exactly the entries stamped below
    the epoch and below every pin, keeps the others in order, and is ready for the orphans.
   */
  lemma PassAlone(s: State, t: nat) returns (n: nat)
    requires t < |s.threads| && s.threads[t].reclaim.RIdle? && s.threads[t].work == []
    ensures var f := ReclaimFor(Step(s, BeginScan(t)), t, n);
            var safe := LeastPin(s.threads, s.global);
            var bag := s.threads[t].bag;
            && f.threads == s.threads[t := s.threads[t].(reclaim := RSwept(safe), bag := Protected(bag, safe))]
            && f.freed == s.freed + Objects(Expired(bag, safe))
            && f.orphans == s.orphans && f.global == s.global && f.lock == s.lock
  {
    var safe, bag := LeastPin(s.threads, s.global), s.threads[t].bag;
    var a := ScannedAlone(s, t);
    var s2 := SetThread(s, t, s.threads[t].(reclaim := RScan(safe, |s.threads|)));
    Detaches(s, t, safe);
    hide StepReclaim, Step;
    var s3 := StepReclaim(s2, t);
    var b := FreeAlone(s3, t, safe, 0);
    assert bag[..0] == [] && bag[0..] == bag && [] + ([] + Protected(bag, safe)) == Protected(bag, safe);
    n := a + (1 + b);
    ReclaimForSum(Step(s, BeginScan(t)), t, a, 1 + b);
    assert ReclaimFor(s2, t, 1 + b) == ReclaimFor(s3, t, b);
    var last := s.threads[t].(reclaim := RSwept(safe), bag := Protected(bag, safe));
    assert s3.threads[t := last] == s.threads[t := last];
  }

  lemma ScannedAlone(s: State, t: nat) returns (n: nat)
    requires t < |s.threads| && s.threads[t].reclaim.RIdle?
    ensures Step(s, BeginScan(t)) == SetThread(s, t, s.threads[t].(reclaim := RScan(s.global, 0)))
    ensures ReclaimFor(Step(s, BeginScan(t)), t, n) ==
            SetThread(s, t, s.threads[t].(reclaim := RScan(LeastPin(s.threads, s.global), |s.threads|)))
  {
    var th := s.threads[t].(reclaim := RScan(s.global, 0));
    var s1 := SetThread(s, t, th);
    n := ScanAlone(s1, t, 0, s.global);
    assert s1.threads[0..] == s1.threads;
    SameSlots(s.threads, s1.threads, s.global);
    SetTwice(s, t, th, s.threads[t].(reclaim := RScan(LeastPin(s.threads, s.global), |s.threads|)));
  }

  lemma Detaches(s: State, t: nat, safe: nat)
    requires t < |s.threads|
    ensures var s' := StepReclaim(SetThread(s, t, s.threads[t].(reclaim := RScan(safe, |s.threads|))), t);
            && s'.threads == s.threads[t := s.threads[t].(reclaim := RFree(safe, 0), work := s.threads[t].bag, bag := [])]
            && s'.freed == s.freed && s'.orphans == s.orphans && s'.global == s.global && s'.lock == s.lock
  {
    var th := s.threads[t].(reclaim := RScan(safe, |s.threads|));
    var last := s.threads[t].(reclaim := RFree(safe, 0), work := s.threads[t].bag, bag := []);
    assert s.threads[t := th][t := last] == s.threads[t := last];
  }

  /** With the lock free, the sweep that follows does the same to the orphans and gives the lock back. */
  lemma OrphansAlone(s: State, t: nat, safe: nat) returns (n: nat)
    requires t < |s.threads| && s.threads[t].reclaim == RSwept(safe) && s.lock == None
    ensures var f := ReclaimFor(Step(s, SweepOrphans(t)), t, n);
            && f.threads == s.threads[t := s.threads[t].(reclaim := RIdle)]
            && f.orphans == Protected(s.orphans, safe) && f.freed == s.freed + Objects(Expired(s.orphans, safe))
            && f.global == s.global && f.lock == None
  {
    var s1 := Step(s, SweepOrphans(t));
    n := SweepAlone(s1, t, safe, 0);
    assert s.orphans[..0] == [] && s.orphans[0..] == s.orphans && [] + Protected(s.orphans, safe) == Protected(s.orphans, safe);
    assert s1.threads[t := s1.threads[t].(reclaim := RIdle)] == s.threads[t := s.threads[t].(reclaim := RIdle)];
  }

  lemma {:induction false} AllExpired(list: seq<Retired>, safe: nat)
    requires forall i | 0 <= i < |list| :: list[i].epoch < safe
    ensures Protected(list, safe) == [] && Expired(list, safe) == list
  {
    if list != [] { AllExpired(list[..|list| - 1], safe); }
  }

  lemma {:induction false} NoPins(threads: seq<Thread>, bound: nat)
    requires forall i | 0 <= i < |threads| :: threads[i].slot.None?
    ensures LeastPin(threads, bound) == bound
  {
    if threads != [] { NoPins(threads[1..], bound); }
  }

  /**
    A gate left alone with no guard open frees everything there is to free: its whole bag and all the
    orphans, in order.
   */
  lemma GateFreesAll(s: State, t: nat) returns (m: nat, n: nat)
    requires Inv(s) && t < |s.threads| && s.threads[t].reclaim.RIdle? && s.lock.None?
    requires forall i | 0 <= i < |s.threads| :: s.threads[i].slot.None?
    ensures var passed := ReclaimFor(Step(StepReclaim(Step(s, LoadForAdvance(t)), t), BeginScan(t)), t, m);
            var f := ReclaimFor(Step(passed, SweepOrphans(t)), t, n);
            && f.threads == s.threads[t := s.threads[t].(bag := [])] && f.orphans == []
            && f.freed == s.freed + Objects(s.threads[t].bag) + Objects(s.orphans)
            && f.global == s.global + 1 && f.lock == None
  {
    AdvanceAlone(s, t);
    var s1 := s.(global := s.global + 1);
    NoPins(s.threads, s1.global);
    BagIsStamped(s, t);
    AllExpired(s.threads[t].bag, s1.global);
    AllExpired(s.orphans, s1.global);
    hide StepReclaim, Step, Inv;
    m := PassAlone(s1, t);
    n := OrphansAlone(ReclaimFor(Step(s1, BeginScan(t)), t, m), t, s1.global);
  }

  lemma BagIsStamped(s: State, t: nat)
    requires Inv(s) && t < |s.threads|
    ensures forall i | 0 <= i < |s.threads[t].bag| :: s.threads[t].bag[i].epoch <= s.global
    ensures forall i | 0 <= i < |s.orphans| :: s.orphans[i].epoch <= s.global
    ensures s.threads[t].reclaim.RIdle? ==> s.threads[t].work == []
  {
    assert ThreadPlaces(s, t);
    ListStamped(s, s.threads[t].bag, InBag(t));
    ListStamped(s, s.orphans, Orphaned);
  }

  lemma ListStamped(s: State, list: seq<Retired>, p: Place)
    requires StampsOk(s) && ListOk(s, list, p)
    ensures forall i | 0 <= i < |list| :: list[i].epoch <= s.global
  {
    forall i | 0 <= i < |list| ensures list[i].epoch <= s.global { assert list[i].obj in s.stamp; }
  }

  /** A guard left alone pins the present epoch while it is open, and nothing afterwards. */
  lemma GuardAlone(s: State, t: nat)
    requires t < |s.threads| && s.threads[t].guards == 0
    ensures var f := Step(Step(s, OpenGuard(t)), StorePin(t));
            && f.threads[t].slot == Some(s.global) && f.threads[t].guards == 1
            && Step(f, CloseGuard(t)).threads[t].slot == None && Step(f, CloseGuard(t)).threads[t].guards == 0
  {
  }

  /** Guards nest: an inner one neither pins nor unpins, and the objects in hand stay in hand until the outermost closes. */
  lemma GuardsNest(s: State, t: nat)
    requires t < |s.threads| && s.threads[t].guards > 0
    ensures var inner := Step(s, OpenGuard(t));
            && inner.threads[t] == s.threads[t].(guards := s.threads[t].guards + 1)
            && Step(inner, CloseGuard(t)) == s
  {
    assert s.threads[t := s.threads[t]] == s.threads;
  }

  /** A pass that leaves the orphans alone is over with its own bag. */
  lemma SkipEndsPass(s: State, t: nat)
    requires t < |s.threads| && s.threads[t].reclaim.RSwept?
    ensures Step(s, SkipOrphans(t)) == s.(threads := s.threads[t := s.threads[t].(reclaim := RIdle)])
  {
  }

  /** An object published is linked, and a thread whose guard is open gets hold of it. */
  lemma ReachHolds(s: State, t: nat, o: Object)
    requires t < |s.threads| && GuardOk(s, s.threads[t])
    ensures o !in s.place ==> MayPublish(s, o)
    ensures s.threads[t].guards > 0 && o in s.place && s.place[o] == Linked ==> o in Step(s, Reach(t, o)).threads[t].held
  {
  }

  predicate MayPublish(s: State, o: Object) {
    var s' := Step(s, Publish(o)); o in s'.place && s'.place[o] == Linked
  }

  /** An idle gate's hand-off, with the lock free, leaves the bag empty and its entries behind the orphans, in order. */
  lemma HandOffAlone(s: State, t: nat)
    requires t < |s.threads| && s.threads[t].reclaim.RIdle? && s.lock.None?
    ensures var f := Step(s, HandOff(t));
            f.threads[t].bag == [] && f.orphans == s.orphans + s.threads[t].bag && f.freed == s.freed
  {
  }

  /** A retire left alone puts the object at the end of the bag, stamped with the present epoch. */
  lemma RetireAlone(s: State, t: nat, o: Object)
    requires t < |s.threads| && s.threads[t].retiring.NotRetiring? && o in s.place && s.place[o] == Linked
    ensures var f := Step(Step(Step(s, Unlink(t, o)), StampEpoch(t)), Bag(t, false));
            f.threads[t].bag == s.threads[t].bag + [Retired(o, s.global)] && f.threads[t].retiring.NotRetiring?
    ensures s.lock.None? ==>
              var f := Step(Step(Step(s, Unlink(t, o)), StampEpoch(t)), Bag(t, true));
              f.orphans == s.orphans + [Retired(o, s.global)] && f.threads[t].bag == s.threads[t].bag
  {
  }

  class EpochOrphanStore {
    var items: seq<Retired>
    var count: nat                   // g_epochOrphanCount

    ghost predicate Valid()
      reads this
    {
      count == |items|
    }

    constructor ()
      ensures Valid() && items == []
    {
      items := [];
      count := 0;
    }

    // OrphanEpochEntries: the caller's entries go behind the ones already here.
    method Orphan(v: seq<Retired>)
      requires Valid()
      modifies this
      ensures Valid() && items == old(items) + v && count == old(count) + |v|
    {
      if v == [] { return; }
      var k := 0;
      while k < |v|
        invariant 0 <= k <= |v| && items == old(items) + v[..k]
      {
        items := items + [v[k]];
        k := k + 1;
      }
      count := |items|;
    }

    // SweepEpochOrphans: frees what is below the safe epoch and compacts the rest in place.
    method Sweep(safe: nat) returns (freed: seq<Retired>)
      requires Valid()
      modifies this
      ensures Valid() && count == old(count) - |freed|
      ensures freed == Expired(old(items), safe)
      ensures items == Protected(old(items), safe)
      ensures |old(items)| == |freed| + |items|
    {
      ghost var before := items;
      var kept, i := 0, 0;
      freed := [];
      while i < |items|
        invariant 0 <= kept <= i <= |items| == |before|
        invariant items[..kept] == Protected(before[..i], safe)
        invariant items[i..] == before[i..]
        invariant freed == Expired(before[..i], safe) && i == kept + |freed|
      {
        assert before[..i + 1][..i] == before[..i] && items[i] == before[i] && items[i + 1..] == before[i + 1..];
        ghost var was := items[..kept];
        if items[i].epoch < safe {
          freed := freed + [items[i]];
        } else {
          items := items[kept := items[i]];
          kept := kept + 1;
          assert items[..kept] == was + [before[i]];
        }
        i := i + 1;
      }
      assert before[..i] == before;
      items := items[..kept];
      count := |items|;
    }
  }
}
