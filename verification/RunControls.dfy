/**
 The active-run control registry: one registry lock, one gate per owner slot.

 Every region the registry runs under its lock is one atomic step, and so is
 every read of the clock, every gate operation and every entry to or exit from
 an owner. Any number of threads interleave those steps, and time passes at any
 point between two of them. The log records what the owners themselves see.
 */
module RunControls {
  import opened Wrappers

  type RunId = nat
  type SlotId = nat
  type ThreadId = nat

  const MAX_ACTIVE_RUN_CONTROLS: nat := 64

  /** One owner's slot. `closer`, `due`, `inside` and `closes` are history: the thread that
      retired the slot and the deadline of its call, the thread inside the owner, and how often
      it was closed. */
  datatype Slot = Slot(
    gate: Option<ThreadId>, retired: bool,
    closer: Option<ThreadId>, inside: Option<ThreadId>, closes: nat, due: int)

  datatype Call = Dispatching(id: RunId) | Unregistering(id: RunId) | Stopping

  /** The point a thread has reached inside its call, in program order. */
  datatype Stage =
    | Idle
    | Looking       // about to enter the first lock region
    | Budgeting     // about to read the clock before the gate
    | Waiting       // blocked on the gate
    | Revalidating  // holds the gate, about to look the slot up again
    | Checking      // holds the gate, about to read the clock
    | Calling       // has its budget, about to enter the owner
    | Inside        // inside the owner
    | Finishing     // the owner returned, about to read the clock
    | Releasing     // about to release the gate

  /** `slot` is the slot being worked on and `rest` the slots still to close after it.
      `mark` is the last clock reading taken before the owner, then the owner's start. */
  datatype Thread = Thread(
    stage: Stage, call: Call, slot: SlotId, rest: seq<SlotId>,
    deadline: int, mark: int, finished: Option<int>)

  datatype Event =
    | Started(slot: SlotId, thread: ThreadId, closing: bool, deadline: int, checkedAt: int, budget: int, at: int)
    | Ended(slot: SlotId, thread: ThreadId)
    | Delivered(slot: SlotId, thread: ThreadId, deadline: int, startedAt: int, finishedAt: int)

  datatype State = State(
    capacity: nat,
    closed: bool,
    controls: map<RunId, SlotId>,
    slots: seq<Slot>,
    threads: map<ThreadId, Thread>,
    clock: int,
    log: seq<Event>)

  /** `GiveUp` is a gate wait that timed out; `Raise` is an owner that failed. */
  datatype Choice = Go | GiveUp | Raise

  datatype Action =
    | Tick(elapsed: nat)
    | Register(id: RunId)
    | Begin(thread: ThreadId, call: Call, timeout: int)
    | Advance(thread: ThreadId, choice: Choice)

  predicate Initial(s: State) {
    && 1 <= s.capacity <= MAX_ACTIVE_RUN_CONTROLS
    && !s.closed && s.controls == map[] && s.slots == [] && s.threads == map[] && s.log == []
  }

  // ---- one atomic step ----

  predicate HasSlot(stage: Stage) { !stage.Idle? && !stage.Looking? }

  predicate Fits(s: State) {
    && (forall id :: id in s.controls ==> s.controls[id] < |s.slots|)
    && (forall t :: t in s.threads && HasSlot(s.threads[t].stage) ==> s.threads[t].slot < |s.slots|)
  }

  function Move(s: State, t: ThreadId, p: Thread): State {
    s.(threads := s.threads[t := p])
  }

  function Record(s: State, e: Event): State {
    s.(log := s.log + [e])
  }

  function SetSlot(s: State, k: SlotId, slot: Slot): State
    requires k < |s.slots|
  {
    s.(slots := s.slots[k := slot])
  }

  function Registered(s: State, id: RunId): State {
    if s.closed || id in s.controls || |s.controls| >= s.capacity then s
    else s.(controls := s.controls[id := |s.slots|], slots := s.slots + [Slot(None, false, None, None, 0, 0)])
  }

  /** The registered slots below `n`, in registration order. */
  function LiveSlots(controls: map<RunId, SlotId>, n: nat): seq<SlotId> {
    if n == 0 then []
    else LiveSlots(controls, n - 1) + (if n - 1 in controls.Values then [n - 1] else [])
  }

  function RetiredBy(slot: Slot, t: ThreadId, due: int): Slot { slot.(retired := true, closer := Some(t), due := due) }

  function RetireOne(s: State, t: ThreadId, id: RunId): State
    requires t in s.threads && id in s.controls && s.controls[id] < |s.slots|
  {
    var k := s.controls[id];
    SetSlot(s, k, RetiredBy(s.slots[k], t, s.threads[t].deadline)).(controls := s.controls - {id})
  }

  function RetireAll(s: State, t: ThreadId): State
    requires t in s.threads
  {
    s.(closed := true,
       controls := map[],
       slots := seq(|s.slots|, k requires 0 <= k < |s.slots| =>
                    if k in s.controls.Values then RetiredBy(s.slots[k], t, s.threads[t].deadline) else s.slots[k]))
  }

  /** After one slot's cleanup: the next slot of the call, or the end of the call. */
  function AfterSlot(p: Thread): Thread {
    if p.rest == [] then p.(stage := Idle)
    else p.(stage := Budgeting, slot := p.rest[0], rest := p.rest[1..])
  }

  function Abandon(p: Thread): Thread {
    if p.call.Dispatching? then p.(stage := Idle) else AfterSlot(p)
  }

  /** The first lock region of the call of thread `t`. */
  function LookUp(s: State, t: ThreadId): State
    requires Fits(s) && t in s.threads
  {
    var p := s.threads[t];
    match p.call
    case Dispatching(id) =>
      if s.closed || id !in s.controls then Move(s, t, p.(stage := Idle))
      else Move(s, t, p.(stage := Budgeting, slot := s.controls[id], rest := []))
    case Unregistering(id) =>
      if id !in s.controls then Move(s, t, p.(stage := Idle))
      else Move(RetireOne(s, t, id), t, p.(stage := Budgeting, slot := s.controls[id], rest := []))
    case Stopping =>
      var work := LiveSlots(s.controls, |s.slots|);
      if s.closed then Move(s, t, p.(stage := Idle))
      else if work == [] then Move(RetireAll(s, t), t, p.(stage := Idle))
      else Move(RetireAll(s, t), t, p.(stage := Budgeting, slot := work[0], rest := work[1..]))
  }

  /** The slot of an owner that thread `t` enters. */
  function Entered(slot: Slot, t: ThreadId, p: Thread): Slot {
    slot.(inside := Some(t), closes := slot.closes + if p.call.Dispatching? then 0 else 1)
  }

  /** The next step of thread `t`; `None` when it cannot move that way. */
  function Advanced(s: State, t: ThreadId, choice: Choice): Option<State>
    requires Fits(s) && t in s.threads
  {
    var p := s.threads[t];
    var k := p.slot;
    match p.stage
    case Idle => None
    case Looking => Some(LookUp(s, t))
    case Budgeting =>
      Some(Move(s, t, if p.deadline <= s.clock then Abandon(p) else p.(stage := Waiting)))
    case Waiting =>
      if choice == GiveUp then
        if p.deadline <= s.clock then Some(Move(s, t, Abandon(p))) else None
      else if s.slots[k].gate == None then
        Some(Move(SetSlot(s, k, s.slots[k].(gate := Some(t))), t,
                  p.(stage := if p.call.Dispatching? then Revalidating else Checking)))
      else None
    case Revalidating =>
      if p.call.Dispatching? && !s.slots[k].retired && p.call.id in s.controls && s.controls[p.call.id] == k then
        Some(Move(s, t, p.(stage := Checking)))
      else Some(Move(s, t, p.(stage := Releasing, finished := None)))
    case Checking =>
      Some(Move(s, t, if p.deadline <= s.clock then p.(stage := Releasing, finished := None)
                      else p.(stage := Calling, mark := s.clock)))
    case Calling =>
      var e := Started(k, t, !p.call.Dispatching?, p.deadline, p.mark, p.deadline - p.mark, s.clock);
      Some(Move(Record(SetSlot(s, k, Entered(s.slots[k], t, p)), e), t, p.(stage := Inside, mark := s.clock)))
    case Inside =>
      Some(Move(Record(SetSlot(s, k, s.slots[k].(inside := None)), Ended(k, t)), t,
                if choice == Raise then p.(stage := Releasing, finished := None) else p.(stage := Finishing)))
    case Finishing =>
      Some(Move(s, t, p.(stage := Releasing, finished := if p.deadline <= s.clock then None else Some(s.clock))))
    case Releasing =>
      var freed := Move(SetSlot(s, k, s.slots[k].(gate := None)), t, Abandon(p));
      // the evidence is inspected after the release; `Raise` is evidence of another run
      if p.call.Dispatching? && p.finished.Some? && choice != Raise then
        Some(Record(freed, Delivered(k, t, p.deadline, p.mark, p.finished.value)))
      else Some(freed)
  }

  function Step(s: State, a: Action): Option<State>
    requires Fits(s)
  {
    match a
    case Tick(elapsed) => Some(s.(clock := s.clock + elapsed))
    case Register(id) => Some(Registered(s, id))
    case Begin(t, call, timeout) =>
      if timeout > 0 && (t !in s.threads || s.threads[t].stage.Idle?) then
        Some(Move(s, t, Thread(Looking, call, 0, [], s.clock + timeout, s.clock, None)))
      else None
    case Advance(t, choice) =>
      if t in s.threads then Advanced(s, t, choice) else None
  }

  // ---- what the owners see ----

  /** How often the owner in slot `k` was asked to close. */
  function CloseStarts(log: seq<Event>, k: SlotId): nat {
    if log == [] then 0
    else
      var e := log[|log| - 1];
      CloseStarts(log[..|log| - 1], k) + (if e.Started? && e.closing && e.slot == k then 1 else 0)
  }

  /** The thread currently inside the owner in slot `k`. */
  function Busy(log: seq<Event>, k: SlotId): Option<ThreadId> {
    if log == [] then None
    else
      var e := log[|log| - 1];
      if e.Started? && e.slot == k then Some(e.thread)
      else if e.Ended? && e.slot == k then None
      else Busy(log[..|log| - 1], k)
  }

  /** What may follow the events already logged: an owner is entered only while
      nobody is inside it and its close has not begun, and with a positive budget
      that was measured before the entry. */
  predicate EventSafe(before: seq<Event>, e: Event) {
    match e
    case Started(k, t, closing, deadline, checkedAt, budget, at) =>
      && Busy(before, k) == None
      && CloseStarts(before, k) == 0
      && checkedAt <= at && budget == deadline - checkedAt && budget > 0
    case Ended(k, t) => Busy(before, k) == Some(t)
    case Delivered(k, t, deadline, startedAt, finishedAt) => startedAt <= finishedAt < deadline
  }

  ghost predicate SafeLog(log: seq<Event>) {
    forall i :: 0 <= i < |log| ==> EventSafe(log[..i], log[i])
  }

  // ---- the invariant ----

  predicate Holding(stage: Stage) {
    stage.Revalidating? || stage.Checking? || stage.Calling? || stage.Inside? || stage.Finishing? || stage.Releasing?
  }

  predicate Distinct(xs: seq<SlotId>) {
    forall i, j :: 0 <= i < j < |xs| ==> xs[i] != xs[j]
  }

  /** Thread `t` retired slot `k` and has not asked its owner to close yet. */
  predicate Owed(slots: seq<Slot>, t: ThreadId, k: SlotId) {
    k < |slots| && slots[k].retired && slots[k].closer == Some(t) && slots[k].closes == 0
  }

  /** What a thread has established by the time it stands at its stage. */
  predicate ThreadOk(slots: seq<Slot>, clock: int, t: ThreadId, p: Thread) {
    && (HasSlot(p.stage) ==> p.slot < |slots|)
    && (Holding(p.stage) ==> slots[p.slot].gate == Some(t))
    && (p.stage.Inside? ==> slots[p.slot].inside == Some(t))
    && (p.stage.Revalidating? ==> p.call.Dispatching?)
    && (p.call.Dispatching? && (p.stage.Checking? || p.stage.Calling?) ==> slots[p.slot].closes == 0)
    && (HasSlot(p.stage) && !p.call.Dispatching? ==>
          && Distinct(p.rest) && p.slot !in p.rest
          && (forall k :: k in p.rest ==> Owed(slots, t, k))
          && (p.stage.Budgeting? || p.stage.Waiting? || p.stage.Checking? || p.stage.Calling? ==>
              Owed(slots, t, p.slot)))
    && (p.stage.Calling? ==> p.mark < p.deadline)
    && (p.stage.Calling? || p.stage.Inside? || p.stage.Finishing? ==> p.mark <= clock)
    && (p.stage.Releasing? && p.finished.Some? ==> p.mark <= p.finished.value < p.deadline)
  }

  predicate SlotOk(threads: map<ThreadId, Thread>, k: SlotId, slot: Slot) {
    && (slot.gate.Some? ==>
          var t := slot.gate.value; t in threads && Holding(threads[t].stage) && threads[t].slot == k)
    && (slot.inside.Some? ==>
          var t := slot.inside.value; t in threads && threads[t].stage.Inside? && threads[t].slot == k)
    && slot.closes <= 1
    && (!slot.retired ==> slot.closes == 0)
  }

  ghost predicate ControlsInv(s: State) {
    && |s.controls| <= s.capacity
    && (s.closed ==> s.controls == map[])
    && (forall id :: id in s.controls ==> s.controls[id] < |s.slots| && !s.slots[s.controls[id]].retired)
    && (forall id, id' :: id in s.controls && id' in s.controls && s.controls[id] == s.controls[id'] ==> id == id')
  }

  ghost predicate Inv(s: State) {
    && ControlsInv(s)
    && (forall t :: t in s.threads ==> ThreadOk(s.slots, s.clock, t, s.threads[t]))
    && (forall k: SlotId :: k < |s.slots| ==> SlotOk(s.threads, k, s.slots[k]))
  }

  // ---- every kind of step keeps the invariant ----

  /** A thread moves without touching gates, slots, registrations or the log. */
  lemma MoveKeeps(s: State, t: ThreadId, p: Thread)
    requires Inv(s) && ThreadOk(s.slots, s.clock, t, p)
    requires t in s.threads ==>
               && (Holding(s.threads[t].stage) ==> Holding(p.stage) && p.slot == s.threads[t].slot)
               && !s.threads[t].stage.Inside?
    ensures Inv(Move(s, t, p))
  {
  }

  /** A slot whose gate is free or held by `t` may change under every other thread. */
  lemma {:induction false} OtherThreadKeeps(
      slots: seq<Slot>, clock: int, t: ThreadId, k: SlotId, slot: Slot, u: ThreadId, p: Thread)
    requires u != t && ThreadOk(slots, clock, u, p) && k < |slots|
    requires slots[k].gate == None || slots[k].gate == Some(t)
    requires slot.retired == slots[k].retired && slot.closer == slots[k].closer
    requires slot.closes != slots[k].closes ==> slot.closer == Some(t)
    ensures ThreadOk(slots[k := slot], clock, u, p)
  {
    forall j | j in p.rest && Owed(slots, u, j) ensures Owed(slots[k := slot], u, j) { }
  }

  /** A thread changes the slot it works on, whose gate is free or its own, and moves. */
  lemma {:induction false} SlotKeeps(s: State, t: ThreadId, slot: Slot, p: Thread)
    requires Inv(s) && t in s.threads && HasSlot(s.threads[t].stage)
    requires var k := s.threads[t].slot;
             && (s.slots[k].gate == None || s.slots[k].gate == Some(t))
             && slot.retired == s.slots[k].retired && slot.closer == s.slots[k].closer
             && (slot.closes != s.slots[k].closes ==> slot.closer == Some(t))
             && ThreadOk(s.slots[k := slot], s.clock, t, p)
             && SlotOk(s.threads[t := p], k, slot)
    ensures Inv(Move(SetSlot(s, s.threads[t].slot, slot), t, p))
  {
    var k := s.threads[t].slot;
    var s' := Move(SetSlot(s, k, slot), t, p);
    forall u | u in s'.threads ensures ThreadOk(s'.slots, s'.clock, u, s'.threads[u]) {
      if u != t { OtherThreadKeeps(s.slots, s.clock, t, k, slot, u, s.threads[u]); }
    }
    forall j: SlotId | j < |s'.slots| ensures SlotOk(s'.threads, j, s'.slots[j]) {
      assert SlotOk(s.threads, j, s.slots[j]);
    }
  }

  /** The cleanup of one slot ends: the thread turns to the next one it owes. */
  lemma {:induction false} AbandonOk(slots: seq<Slot>, clock: int, t: ThreadId, p: Thread)
    requires ThreadOk(slots, clock, t, p) && HasSlot(p.stage)
    ensures ThreadOk(slots, clock, t, Abandon(p))
  {
    if p.rest != [] && !p.call.Dispatching? {
      assert p.rest[0] in p.rest;
      assert forall k :: k in p.rest[1..] ==> k in p.rest;
    }
  }

  lemma {:induction false} EnteredOk(slots: seq<Slot>, clock: int, t: ThreadId, p: Thread)
    requires ThreadOk(slots, clock, t, p) && p.stage.Calling?
    ensures ThreadOk(slots[p.slot := Entered(slots[p.slot], t, p)], clock, t, p.(stage := Inside, mark := clock))
  {
    var slots' := slots[p.slot := Entered(slots[p.slot], t, p)];
    forall j | j in p.rest && Owed(slots, t, j) ensures Owed(slots', t, j) { }
  }

  lemma {:induction false} EnterKeeps(s: State, t: ThreadId)
    requires Inv(s) && t in s.threads && s.threads[t].stage.Calling?
    ensures Inv(Advanced(s, t, Go).value.(log := s.log))
  {
    var p := s.threads[t];
    var p' := p.(stage := Inside, mark := s.clock);
    EnteredOk(s.slots, s.clock, t, p);
    assert SlotOk(s.threads, p.slot, s.slots[p.slot]);
    SlotKeeps(s, t, Entered(s.slots[p.slot], t, p), p');
  }

  lemma {:induction false} LeaveKeeps(s: State, t: ThreadId, choice: Choice)
    requires Inv(s) && t in s.threads && s.threads[t].stage.Inside?
    ensures Inv(Advanced(s, t, choice).value.(log := s.log))
  {
    var p := s.threads[t];
    var k := p.slot;
    var p' := if choice == Raise then p.(stage := Releasing, finished := None) else p.(stage := Finishing);
    var left := s.slots[k].(inside := None);
    assert ThreadOk(s.slots[k := left], s.clock, t, p') by {
      forall j | j in p.rest && Owed(s.slots, t, j) ensures Owed(s.slots[k := left], t, j) { }
    }
    SlotKeeps(s, t, left, p');
  }

  lemma {:induction false} ReleaseKeeps(s: State, t: ThreadId)
    requires Inv(s) && t in s.threads && s.threads[t].stage.Releasing?
    ensures var k := s.threads[t].slot;
            Inv(Move(SetSlot(s, k, s.slots[k].(gate := None)), t, Abandon(s.threads[t])))
  {
    var p := s.threads[t];
    var k := p.slot;
    var freed := s.slots[k].(gate := None);
    AbandonOk(s.slots, s.clock, t, p);
    var p' := Abandon(p);
    assert ThreadOk(s.slots[k := freed], s.clock, t, p') by {
      forall j | j in p'.rest && Owed(s.slots, t, j) ensures Owed(s.slots[k := freed], t, j) { }
    }
    SlotKeeps(s, t, freed, p');
  }

  lemma {:induction false} AcquireKeeps(s: State, t: ThreadId)
    requires Inv(s) && t in s.threads && s.threads[t].stage.Waiting? && s.slots[s.threads[t].slot].gate == None
    ensures Inv(Advanced(s, t, Go).value)
  {
    var p := s.threads[t];
    var k := p.slot;
    var p' := p.(stage := if p.call.Dispatching? then Revalidating else Checking);
    var taken := s.slots[k].(gate := Some(t));
    assert ThreadOk(s.slots[k := taken], s.clock, t, p') by {
      forall j | j in p.rest && Owed(s.slots, t, j) ensures Owed(s.slots[k := taken], t, j) { }
    }
    SlotKeeps(s, t, taken, p');
  }

  /** The steps that read the clock or the registry while holding the gate. */
  lemma {:induction false} ReadKeeps(s: State, t: ThreadId, choice: Choice)
    requires Inv(s) && t in s.threads
    requires var g := s.threads[t].stage; g.Revalidating? || g.Checking? || g.Finishing?
    ensures Inv(Advanced(s, t, choice).value)
  {
    var p' := Advanced(s, t, choice).value.threads[t];
    assert ThreadOk(s.slots, s.clock, t, p');
    MoveKeeps(s, t, p');
  }

  lemma {:induction false} GiveUpKeeps(s: State, t: ThreadId, choice: Choice)
    requires Inv(s) && t in s.threads
    requires var g := s.threads[t].stage; g.Budgeting? || (g.Waiting? && choice == GiveUp)
    requires Advanced(s, t, choice).Some?
    ensures Inv(Advanced(s, t, choice).value)
  {
    var p' := Advanced(s, t, choice).value.threads[t];
    AbandonOk(s.slots, s.clock, t, s.threads[t]);
    MoveKeeps(s, t, p');
  }

  // ---- registration and retirement ----

  lemma {:induction false} LiveSlotsAre(controls: map<RunId, SlotId>, n: nat)
    ensures var live := LiveSlots(controls, n);
            && Distinct(live) && (forall i, j :: 0 <= i < j < |live| ==> live[i] < live[j])
            && (forall k: SlotId :: k in live <==> k < n && k in controls.Values)
  {
    if n > 0 {
      LiveSlotsAre(controls, n - 1);
      var before := LiveSlots(controls, n - 1);
      assert forall i :: 0 <= i < |before| ==> before[i] in before;
    }
  }

  lemma {:induction false} NewSlotKeepsThread(slots: seq<Slot>, slot: Slot, clock: int, t: ThreadId, p: Thread)
    requires ThreadOk(slots, clock, t, p)
    ensures ThreadOk(slots + [slot], clock, t, p)
  {
    forall j | j in p.rest && Owed(slots, t, j) ensures Owed(slots + [slot], t, j) { }
  }

  lemma {:induction false} OneMoreControl(controls: map<RunId, SlotId>, id: RunId, k: SlotId)
    requires id !in controls
    ensures |controls[id := k]| == |controls| + 1
  {
    assert controls[id := k].Keys == controls.Keys + {id};
    assert |controls.Keys + {id}| == |controls.Keys| + 1;
  }

  lemma {:induction false} NewControl(s: State, id: RunId)
    requires ControlsInv(s)
    ensures ControlsInv(Registered(s, id))
  {
    if !s.closed && id !in s.controls && |s.controls| < s.capacity {
      var s' := Registered(s, id);
      OneMoreControl(s.controls, id, |s.slots|);
      assert s'.controls == s.controls[id := |s.slots|];
      assert forall j :: j in s.controls ==> s'.slots[s.controls[j]] == s.slots[s.controls[j]];
    }
  }

  lemma {:induction false} RegisterKeeps(s: State, id: RunId)
    requires Inv(s)
    ensures Inv(Registered(s, id))
  {
    NewControl(s, id);
    var s' := Registered(s, id);
    forall t | t in s'.threads ensures ThreadOk(s'.slots, s'.clock, t, s'.threads[t]) {
      NewSlotKeepsThread(s.slots, Slot(None, false, None, None, 0, 0), s.clock, t, s.threads[t]);
    }
  }

  /** Retiring the registered slots in `gone` on behalf of `t` leaves every other thread as it was. */
  lemma {:induction false} RetirementKeeps(s: State, t: ThreadId, s1: State, p: Thread)
    requires Inv(s) && t in s.threads && s.threads[t].stage.Looking?
    requires s1.threads == s.threads && s1.clock == s.clock && |s1.slots| == |s.slots| && s1.capacity == s.capacity
    requires ControlsInv(s1)
    requires forall k: SlotId :: k < |s.slots| ==>
               s1.slots[k] == s.slots[k]
               || (!s.slots[k].retired && s1.slots[k] == RetiredBy(s.slots[k], t, s.threads[t].deadline))
    requires ThreadOk(s1.slots, s.clock, t, p) && p.stage.Budgeting?
    ensures Inv(Move(s1, t, p))
  {
    var s' := Move(s1, t, p);
    forall u | u in s'.threads ensures ThreadOk(s'.slots, s'.clock, u, s'.threads[u]) {
      if u != t {
        var q := s.threads[u];
        assert ThreadOk(s.slots, s.clock, u, q);
        forall j: SlotId | Owed(s.slots, u, j) ensures Owed(s1.slots, u, j) { }
      }
    }
    forall k: SlotId | k < |s'.slots| ensures SlotOk(s'.threads, k, s'.slots[k]) {
      assert SlotOk(s.threads, k, s.slots[k]);
    }
  }

  lemma {:induction false} RetireOneKeeps(s: State, t: ThreadId, id: RunId)
    requires Inv(s) && t in s.threads && s.threads[t].stage.Looking? && s.threads[t].call == Unregistering(id)
    ensures Inv(LookUp(s, t))
  {
    var p := s.threads[t];
    if id in s.controls {
      var s1 := RetireOne(s, t, id);
      var p' := p.(stage := Budgeting, slot := s.controls[id], rest := []);
      assert s1.controls.Keys == s.controls.Keys - {id};
      assert |s1.controls.Keys| <= |s.controls.Keys|;
      assert SlotOk(s.threads, s.controls[id], s.slots[s.controls[id]]);
      RetirementKeeps(s, t, s1, p');
    } else {
      MoveKeeps(s, t, p.(stage := Idle));
    }
  }

  /** Shutdown retires exactly the registered slots, all of them owed by `t`. */
  lemma {:induction false} RetireAllIs(s: State, t: ThreadId)
    requires Inv(s) && t in s.threads
    ensures var s1 := RetireAll(s, t);
            && (forall k: SlotId :: k in LiveSlots(s.controls, |s.slots|) ==> Owed(s1.slots, t, k))
            && (forall k: SlotId :: k < |s.slots| ==>
                  if k in LiveSlots(s.controls, |s.slots|)
                  then !s.slots[k].retired && s1.slots[k] == RetiredBy(s.slots[k], t, s.threads[t].deadline)
                  else s1.slots[k] == s.slots[k])
  {
    var s1 := RetireAll(s, t);
    LiveSlotsAre(s.controls, |s.slots|);
    forall k: SlotId | k < |s.slots| && k in s.controls.Values
      ensures !s.slots[k].retired && s.slots[k].closes == 0
    {
      var id :| id in s.controls && s.controls[id] == k;
      assert SlotOk(s.threads, k, s.slots[k]);
    }
  }

  lemma {:induction false} WorkOk(slots: seq<Slot>, clock: int, t: ThreadId, work: seq<SlotId>, p: Thread)
    requires work != [] && Distinct(work) && forall k: SlotId :: k in work ==> Owed(slots, t, k)
    requires p.stage.Budgeting? && !p.call.Dispatching? && p.slot == work[0] && p.rest == work[1..]
    ensures ThreadOk(slots, clock, t, p)
  {
    assert work[0] in work;
    assert forall k :: k in work[1..] ==> k in work;
  }

  lemma {:induction false} RetireAllKeeps(s: State, t: ThreadId)
    requires Inv(s) && t in s.threads && s.threads[t].stage.Looking? && s.threads[t].call == Stopping
    ensures Inv(LookUp(s, t))
  {
    var p := s.threads[t];
    var work := LiveSlots(s.controls, |s.slots|);
    if s.closed {
      MoveKeeps(s, t, p.(stage := Idle));
    } else {
      var s1 := RetireAll(s, t);
      assert ControlsInv(s1);
      RetireAllIs(s, t);
      if work == [] {
        assert s1.slots == s.slots;
        assert Inv(s1);
        MoveKeeps(s1, t, p.(stage := Idle));
      } else {
        var p' := p.(stage := Budgeting, slot := work[0], rest := work[1..]);
        LiveSlotsAre(s.controls, |s.slots|);
        WorkOk(s1.slots, s.clock, t, work, p');
        RetirementKeeps(s, t, s1, p');
      }
    }
  }

  lemma {:induction false} LookUpKeeps(s: State, t: ThreadId)
    requires Inv(s) && t in s.threads && s.threads[t].stage.Looking?
    ensures Inv(LookUp(s, t))
  {
    var p := s.threads[t];
    match p.call
    case Unregistering(id) => RetireOneKeeps(s, t, id);
    case Stopping => RetireAllKeeps(s, t);
    case Dispatching(id) => MoveKeeps(s, t, LookUp(s, t).threads[t]);
  }

  lemma {:induction false} AdvanceKeeps(s: State, t: ThreadId, choice: Choice)
    requires Inv(s) && t in s.threads && Advanced(s, t, choice).Some?
    ensures Inv(Advanced(s, t, choice).value.(log := s.log))
  {
    var p := s.threads[t];
    match p.stage
    case Looking => LookUpKeeps(s, t);
    case Budgeting => GiveUpKeeps(s, t, choice);
    case Waiting => if choice == GiveUp { GiveUpKeeps(s, t, choice); } else { AcquireKeeps(s, t); }
    case Revalidating => ReadKeeps(s, t, choice);
    case Checking => ReadKeeps(s, t, choice);
    case Finishing => ReadKeeps(s, t, choice);
    case Calling => EnterKeeps(s, t);
    case Inside => LeaveKeeps(s, t, choice);
    case Releasing => ReleaseKeeps(s, t);
  }

  // ---- the log ----

  lemma {:induction false} LogGrows(log: seq<Event>, e: Event, k: SlotId)
    ensures CloseStarts(log + [e], k) == CloseStarts(log, k) + (if e.Started? && e.closing && e.slot == k then 1 else 0)
    ensures Busy(log + [e], k) ==
            if e.Started? && e.slot == k then Some(e.thread)
            else if e.Ended? && e.slot == k then None
            else Busy(log, k)
  {
    assert (log + [e])[..|log + [e]| - 1] == log;
  }

  lemma {:induction false} SafeLogGrows(log: seq<Event>, e: Event)
    requires SafeLog(log) && EventSafe(log, e)
    ensures SafeLog(log + [e])
  {
    forall i | 0 <= i < |log + [e]|
      ensures EventSafe((log + [e])[..i], (log + [e])[i])
    {
      assert (log + [e])[..i] == log[..i];
      assert i == |log| ==> log[..i] == log;
    }
  }

  /** The log tells the same story as the slots' history. */
  ghost predicate LogInv(s: State) {
    && SafeLog(s.log)
    && (forall k: SlotId :: k < |s.slots| ==>
          CloseStarts(s.log, k) == s.slots[k].closes && Busy(s.log, k) == s.slots[k].inside)
    && (forall k: SlotId :: k >= |s.slots| ==> CloseStarts(s.log, k) == 0 && Busy(s.log, k) == None)
  }

  lemma {:induction false} RecordKeeps(s: State, s': State, e: Event)
    requires LogInv(s) && s'.log == s.log + [e] && |s'.slots| == |s.slots| && e.slot < |s.slots|
    requires EventSafe(s.log, e)
    requires forall j: SlotId :: j < |s.slots| ==>
               && s'.slots[j].closes == s.slots[j].closes + (if e.Started? && e.closing && e.slot == j then 1 else 0)
               && s'.slots[j].inside == (if e.slot != j || e.Delivered? then s.slots[j].inside
                                         else if e.Started? then Some(e.thread) else None)
    ensures LogInv(s')
  {
    SafeLogGrows(s.log, e);
    forall j: SlotId { LogGrows(s.log, e, j); }
  }

  lemma SilentKeeps(s: State, s': State)
    requires LogInv(s) && s'.log == s.log && |s'.slots| == |s.slots|
    requires forall j: SlotId :: j < |s.slots| ==>
        s'.slots[j].closes == s.slots[j].closes && s'.slots[j].inside == s.slots[j].inside
    ensures LogInv(s')
  {
  }

  lemma {:induction false} EnterLogs(s: State, t: ThreadId)
    requires Inv(s) && LogInv(s) && t in s.threads && s.threads[t].stage.Calling?
    ensures LogInv(Advanced(s, t, Go).value)
  {
    var p := s.threads[t];
    var k := p.slot;
    assert ThreadOk(s.slots, s.clock, t, p);
    assert SlotOk(s.threads, k, s.slots[k]);
    var e := Started(k, t, !p.call.Dispatching?, p.deadline, p.mark, p.deadline - p.mark, s.clock);
    assert Busy(s.log, k) == None;
    assert EventSafe(s.log, e);
    RecordKeeps(s, Advanced(s, t, Go).value, e);
  }

  lemma {:induction false} LeaveLogs(s: State, t: ThreadId, choice: Choice)
    requires Inv(s) && LogInv(s) && t in s.threads && s.threads[t].stage.Inside?
    ensures LogInv(Advanced(s, t, choice).value)
  {
    var k := s.threads[t].slot;
    assert ThreadOk(s.slots, s.clock, t, s.threads[t]);
    RecordKeeps(s, Advanced(s, t, choice).value, Ended(k, t));
  }

  lemma {:induction false} ReleaseLogs(s: State, t: ThreadId, choice: Choice)
    requires Inv(s) && LogInv(s) && t in s.threads && s.threads[t].stage.Releasing?
    ensures LogInv(Advanced(s, t, choice).value)
  {
    var p := s.threads[t];
    assert ThreadOk(s.slots, s.clock, t, p);
    var s' := Advanced(s, t, choice).value;
    if s'.log == s.log {
      SilentKeeps(s, s');
    } else {
      RecordKeeps(s, s', Delivered(p.slot, t, p.deadline, p.mark, p.finished.value));
    }
  }

  lemma RetireAllIsSilent(s: State, t: ThreadId)
    requires t in s.threads
    ensures var s1 := RetireAll(s, t);
            && |s1.slots| == |s.slots|
            && forall k: SlotId :: k < |s.slots| ==>
                 s1.slots[k].closes == s.slots[k].closes && s1.slots[k].inside == s.slots[k].inside
  {
  }

  lemma {:induction false} LookUpLogs(s: State, t: ThreadId)
    requires Inv(s) && LogInv(s) && t in s.threads && s.threads[t].stage.Looking?
    ensures LogInv(LookUp(s, t))
  {
    if s.threads[t].call.Stopping? { RetireAllIsSilent(s, t); }
    SilentKeeps(s, LookUp(s, t));
  }

  /** The step of a thread logs at most one event, and only one that may follow. */
  lemma {:induction false} AdvanceLogs(s: State, t: ThreadId, choice: Choice)
    requires Inv(s) && LogInv(s) && t in s.threads && Advanced(s, t, choice).Some?
    ensures LogInv(Advanced(s, t, choice).value)
  {
    match s.threads[t].stage
    case Looking => LookUpLogs(s, t);
    case Calling => EnterLogs(s, t);
    case Inside => LeaveLogs(s, t, choice);
    case Releasing => ReleaseLogs(s, t, choice);
    case Idle =>
    case _ => SilentKeeps(s, Advanced(s, t, choice).value);
  }

  lemma {:induction false} TickKeeps(s: State, elapsed: nat)
    requires Inv(s)
    ensures Inv(s.(clock := s.clock + elapsed))
  {
    forall t | t in s.threads ensures ThreadOk(s.slots, s.clock + elapsed, t, s.threads[t]) {
      assert ThreadOk(s.slots, s.clock, t, s.threads[t]);
    }
  }

  lemma NewSlotLogs(s: State, id: RunId)
    requires LogInv(s)
    ensures LogInv(Registered(s, id))
  {
  }

  lemma {:induction false} StepKeeps(s: State, a: Action)
    requires Inv(s) && LogInv(s) && Step(s, a).Some?
    ensures Inv(Step(s, a).value) && LogInv(Step(s, a).value)
  {
    match a
    case Tick(elapsed) => TickKeeps(s, elapsed);
    case Register(id) =>
      RegisterKeeps(s, id);
      NewSlotLogs(s, id);
    case Begin(t, call, timeout) => MoveKeeps(s, t, Step(s, a).value.threads[t]);
    case Advance(t, choice) =>
      AdvanceKeeps(s, t, choice);
      AdvanceLogs(s, t, choice);
  }

  // ---- whole runs ----

  /** A run from `s` through the actions, `None` once an action is not possible. */
  function Run(s: State, actions: seq<Action>): Option<State>
    decreases |actions|
  {
    if actions == [] then Some(s)
    else if !Fits(s) || Step(s, actions[0]).None? then None
    else Run(Step(s, actions[0]).value, actions[1..])
  }

  lemma {:induction false} RunKeeps(s: State, actions: seq<Action>)
    requires Inv(s) && LogInv(s) && Run(s, actions).Some?
    ensures Inv(Run(s, actions).value) && LogInv(Run(s, actions).value)
    decreases |actions|
  {
    if actions != [] {
      StepKeeps(s, actions[0]);
      RunKeeps(Step(s, actions[0]).value, actions[1..]);
    }
  }

  // ---- what every run promises ----

  lemma {:induction false} CloseStartsMonotone(log: seq<Event>, i: nat, k: SlotId)
    requires i <= |log|
    ensures CloseStarts(log[..i], k) <= CloseStarts(log, k)
    decreases |log|
  {
    if i < |log| {
      CloseStartsMonotone(log[..|log| - 1], i, k);
      assert log[..|log| - 1][..i] == log[..i];
    } else {
      assert log[..i] == log;
    }
  }

  lemma {:induction false} CloseStartCounts(log: seq<Event>, i: nat, j: nat, k: SlotId)
    requires i < j <= |log| && log[i].Started? && log[i].closing && log[i].slot == k
    ensures CloseStarts(log[..j], k) >= 1
  {
    assert log[..i + 1] == log[..i] + [log[i]];
    LogGrows(log[..i], log[i], k);
    CloseStartsMonotone(log[..j], i + 1, k);
    assert log[..j][..i + 1] == log[..i + 1];
  }

  /** Once an owner's close has begun nothing enters that owner again: no second
      close, and no pause, resume or cancel, whatever its run id maps to by then. */
  lemma {:induction false} NothingAfterClose(log: seq<Event>, i: nat, j: nat)
    requires SafeLog(log) && i < j < |log|
    requires log[i].Started? && log[i].closing && log[j].Started?
    ensures log[i].slot != log[j].slot
  {
    if log[i].slot == log[j].slot {
      assert EventSafe(log[..j], log[j]);
      CloseStartCounts(log, i, j, log[i].slot);
    }
  }

  lemma {:induction false} BusyUntilEnded(log: seq<Event>, i: nat)
    requires i < |log| && log[i].Started?
    requires SafeLog(log)
    ensures Busy(log, log[i].slot) == Some(log[i].thread)
        || exists m :: i < m < |log| && log[m] == Ended(log[i].slot, log[i].thread)
    decreases |log|
  {
    var n := |log| - 1;
    if i < n {
      var before := log[..n];
      assert forall m :: 0 <= m < n ==> before[..m] == log[..m] && before[m] == log[m];
      BusyUntilEnded(before, i);
      if Busy(before, log[i].slot) == Some(log[i].thread) {
        assert EventSafe(before, log[n]);
      } else {
        var m :| i < m < |before| && before[m] == Ended(log[i].slot, log[i].thread);
        assert log[m] == Ended(log[i].slot, log[i].thread);
      }
    }
  }

  /** Calls into one owner never overlap: the first one ends before the second begins. */
  lemma {:induction false} CallsNeverOverlap(log: seq<Event>, i: nat, j: nat)
    requires SafeLog(log) && i < j < |log|
    requires log[i].Started? && log[j].Started? && log[i].slot == log[j].slot
    ensures exists m :: i < m < j && log[m] == Ended(log[i].slot, log[i].thread)
  {
    var before := log[..j];
    assert forall m :: 0 <= m < j ==> before[..m] == log[..m] && before[m] == log[m];
    BusyUntilEnded(before, i);
    assert EventSafe(log[..j], log[j]);
    var m :| i < m < |before| && before[m] == Ended(log[i].slot, log[i].thread);
    assert log[m] == Ended(log[i].slot, log[i].thread);
  }

  /** Every interleaving, from an empty registry on. */
  lemma {:induction false} EveryRunIsSafe(s0: State, actions: seq<Action>)
    requires Initial(s0) && Run(s0, actions).Some?
    ensures var s := Run(s0, actions).value;
            && SafeLog(s.log)
            && |s.controls| <= s.capacity
            && (s.closed ==> s.controls == map[])
            && (forall id, id' :: id in s.controls && id' in s.controls && s.controls[id] == s.controls[id'] ==>
                id == id')
            && (forall k: SlotId :: CloseStarts(s.log, k) <= 1)
            && ((forall t :: t in s.threads ==> s.threads[t].stage.Idle?) ==>
                  forall k :: 0 <= k < |s.slots| ==> s.slots[k].gate == None)
  {
    assert SafeLog(s0.log);
    RunKeeps(s0, actions);
    var s := Run(s0, actions).value;
    forall k: SlotId ensures CloseStarts(s.log, k) <= 1 {
      if k < |s.slots| { assert SlotOk(s.threads, k, s.slots[k]); }
    }
    forall k: SlotId | k < |s.slots| ensures s.slots[k].gate.Some? ==>
        exists t :: t in s.threads && !s.threads[t].stage.Idle? {
      assert SlotOk(s.threads, k, s.slots[k]);
    }
  }

  /** The registry stays closed and empty: registration after shutdown changes nothing. */
  lemma {:induction false} ClosedForGood(s: State, actions: seq<Action>)
    requires Inv(s) && LogInv(s) && s.closed && Run(s, actions).Some?
    ensures Run(s, actions).value.closed && Run(s, actions).value.controls == map[]
    decreases |actions|
  {
    if actions != [] {
      var s' := Step(s, actions[0]).value;
      StepKeeps(s, actions[0]);
      assert s'.closed;
      ClosedForGood(s', actions[1..]);
    }
  }

  /** No deadlock: while any call is unfinished, some thread can take a step. */
  lemma {:induction false} SomeThreadCanMove(s: State, t: ThreadId)
    requires Inv(s) && t in s.threads && !s.threads[t].stage.Idle?
    ensures exists u :: u in s.threads && Advanced(s, u, Go).Some?
  {
    assert ThreadOk(s.slots, s.clock, t, s.threads[t]);
    if Advanced(s, t, Go).None? {
      var k := s.threads[t].slot;
      assert SlotOk(s.threads, k, s.slots[k]);
      var u := s.slots[k].gate.value;
      assert Advanced(s, u, Go).Some?;
    }
  }

  // ---- deadlines ----

  /** Every logged owner call began before its deadline. */
  predicate InTime(log: seq<Event>) {
    forall i :: 0 <= i < |log| && log[i].Started? ==> log[i].at < log[i].deadline
  }

  /** Every owner call of every run was granted a positive budget before it began. */
  lemma {:induction false} CallsAreBudgeted(s0: State, actions: seq<Action>, i: nat)
    requires Initial(s0) && Run(s0, actions).Some?
    requires i < |Run(s0, actions).value.log| && Run(s0, actions).value.log[i].Started?
    ensures var e := Run(s0, actions).value.log[i];
            e.checkedAt < e.deadline && e.checkedAt <= e.at && e.budget == e.deadline - e.checkedAt
  {
    EveryRunIsSafe(s0, actions);
    var log := Run(s0, actions).value.log;
    assert EventSafe(log[..i], log[i]);
  }

  /** The action lets a thread enter an owner whose deadline has passed since it was checked. */
  predicate Overdue(s: State, a: Action) {
    && a.Advance? && a.thread in s.threads
    && s.threads[a.thread].stage.Calling? && s.threads[a.thread].deadline <= s.clock
  }

  /** The schedule never does that. */
  predicate Punctual(s: State, actions: seq<Action>)
    decreases |actions|
  {
    actions == [] ||
    (&& Fits(s) && Step(s, actions[0]).Some? && !Overdue(s, actions[0])
     && Punctual(Step(s, actions[0]).value, actions[1..]))
  }

  /** One step logs a late call exactly when it is overdue. */
  lemma {:induction false} StepInTimeIff(s: State, a: Action)
    requires Fits(s) && Step(s, a).Some?
    ensures InTime(Step(s, a).value.log) <==> InTime(s.log) && !Overdue(s, a)
  {
    var s' := Step(s, a).value;
    if a.Advance? && s.threads[a.thread].stage.Calling? {
      assert s'.log == s.log + [s'.log[|s.log|]];
      assert forall i :: 0 <= i < |s.log| ==> s'.log[i] == s.log[i];
    } else if a.Advance? && (s.threads[a.thread].stage.Inside? || s.threads[a.thread].stage.Releasing?) {
      assert forall i :: 0 <= i < |s.log| ==> s'.log[i] == s.log[i];
    }
  }

  lemma {:induction false} RunInTimeIff(s: State, actions: seq<Action>)
    requires Run(s, actions).Some?
    ensures InTime(Run(s, actions).value.log) <==> InTime(s.log) && Punctual(s, actions)
    decreases |actions|
  {
    if actions != [] {
      StepInTimeIff(s, actions[0]);
      RunInTimeIff(Step(s, actions[0]).value, actions[1..]);
    }
  }

  /** Over every run from an empty registry: no owner call starts after its deadline if and
      only if no thread that has its budget is scheduled for the first time when that is spent. */
  lemma {:induction false} NoLateCallIff(s0: State, actions: seq<Action>)
    requires Initial(s0) && Run(s0, actions).Some?
    ensures InTime(Run(s0, actions).value.log) <==> Punctual(s0, actions)
  {
    RunInTimeIff(s0, actions);
  }

  /** No tick carries a thread that is about to enter an owner to its deadline. */
  predicate Swift(s: State, actions: seq<Action>)
    decreases |actions|
  {
    actions == [] ||
    (&& Fits(s) && Step(s, actions[0]).Some?
     && (actions[0].Tick? ==>
           forall t :: t in s.threads && s.threads[t].stage.Calling? ==>
             s.clock + actions[0].elapsed < s.threads[t].deadline)
     && Swift(Step(s, actions[0]).value, actions[1..]))
  }

  /** Every thread about to enter an owner still has budget. */
  predicate Budgeted(s: State) {
    forall t :: t in s.threads && s.threads[t].stage.Calling? ==> s.clock < s.threads[t].deadline
  }

  lemma LookUpMovesOne(s: State, t: ThreadId, u: ThreadId)
    requires Fits(s) && t in s.threads && u != t
    ensures var s' := LookUp(s, t);
            (u in s'.threads <==> u in s.threads) && (u in s.threads ==> s'.threads[u] == s.threads[u])
  {
  }

  lemma {:induction false} OnlyOneMoves(s: State, t: ThreadId, choice: Choice, u: ThreadId)
    requires Fits(s) && t in s.threads && Advanced(s, t, choice).Some? && u != t
    ensures var s' := Advanced(s, t, choice).value;
            (u in s'.threads <==> u in s.threads) && (u in s.threads ==> s'.threads[u] == s.threads[u])
  {
    match s.threads[t].stage
    case Looking => LookUpMovesOne(s, t, u);
    case _ =>
  }

  /** A thread gets to the owner's door only by a check that found budget. */
  lemma {:induction false} MoverBudgeted(s: State, t: ThreadId, choice: Choice)
    requires Fits(s) && t in s.threads && Advanced(s, t, choice).Some?
    ensures var s' := Advanced(s, t, choice).value;
            && t in s'.threads && s'.clock == s.clock
            && (s'.threads[t].stage.Calling? ==> s.clock < s'.threads[t].deadline)
  {
    match s.threads[t].stage
    case Looking => assert !LookUp(s, t).threads[t].stage.Calling?;
    case Checking => assert s.clock < s.threads[t].deadline || Advanced(s, t, choice).value.threads[t].stage.Releasing?;
    case _ =>
  }

  lemma {:induction false} StepBudgeted(s: State, a: Action)
    requires Fits(s) && Step(s, a).Some? && Budgeted(s)
    requires a.Tick? ==>
               forall t :: t in s.threads && s.threads[t].stage.Calling? ==> s.clock + a.elapsed < s.threads[t].deadline
    ensures Budgeted(Step(s, a).value) && !Overdue(s, a)
  {
    if a.Advance? {
      MoverBudgeted(s, a.thread, a.choice);
      forall u | u in Step(s, a).value.threads && u != a.thread
        ensures u in s.threads && Step(s, a).value.threads[u] == s.threads[u]
      {
        OnlyOneMoves(s, a.thread, a.choice, u);
      }
    }
  }

  lemma {:induction false} SwiftIsPunctual(s: State, actions: seq<Action>)
    requires Budgeted(s) && Swift(s, actions)
    ensures Punctual(s, actions)
    decreases |actions|
  {
    if actions != [] {
      StepBudgeted(s, actions[0]);
      SwiftIsPunctual(Step(s, actions[0]).value, actions[1..]);
    }
  }

  /** A run in which time does not pass that far between check and call never starts a late call. */
  lemma {:induction false} SwiftNeverLate(s0: State, actions: seq<Action>)
    requires Initial(s0) && Run(s0, actions).Some? && Swift(s0, actions)
    ensures InTime(Run(s0, actions).value.log)
  {
    SwiftIsPunctual(s0, actions);
    NoLateCallIff(s0, actions);
  }

  /** The time that passes in a schedule. */
  function Elapsed(actions: seq<Action>): nat {
    if actions == [] then 0 else (if actions[0].Tick? then actions[0].elapsed else 0) + Elapsed(actions[1..])
  }

  predicate Leaves(actions: seq<Action>, t: ThreadId) {
    forall i :: 0 <= i < |actions| ==> !(actions[i].Advance? && actions[i].thread == t)
  }

  lemma {:induction false} OthersMove(s: State, a: Action, t: ThreadId)
    requires Fits(s) && Step(s, a).Some? && t in s.threads && !s.threads[t].stage.Idle?
        && !(a.Advance? && a.thread == t)
    ensures var s' := Step(s, a).value;
            t in s'.threads && s'.threads[t] == s.threads[t] && s'.clock == s.clock + Elapsed([a])
  {
    assert Elapsed([a]) == (if a.Tick? then a.elapsed else 0) + Elapsed([a][1..]);
  }

  /** While a thread is not scheduled only time passes for it. */
  lemma {:induction false} OnlyTimePasses(s: State, actions: seq<Action>, t: ThreadId)
    requires Run(s, actions).Some? && t in s.threads && !s.threads[t].stage.Idle? && Leaves(actions, t)
    ensures var s' := Run(s, actions).value;
            t in s'.threads && s'.threads[t] == s.threads[t] && s'.clock == s.clock + Elapsed(actions)
    decreases |actions|
  {
    if actions != [] {
      OthersMove(s, actions[0], t);
      assert Elapsed([actions[0]]) == if actions[0].Tick? then actions[0].elapsed else 0;
      OnlyTimePasses(Step(s, actions[0]).value, actions[1..], t);
    }
  }

  /** A thread whose check found budget, whatever is scheduled before its next step, enters
      its owner in time if and only if less than that budget passes in between. */
  lemma {:induction false} LateIffDelayed(s: State, t: ThreadId, between: seq<Action>)
    requires Fits(s) && t in s.threads && s.threads[t].stage.Checking? && s.clock < s.threads[t].deadline
    requires Leaves(between, t)
    requires var checked := Step(s, Advance(t, Go)).value;
             Run(checked, between).Some? && Fits(Run(checked, between).value)
    ensures var s' := Run(Step(s, Advance(t, Go)).value, between).value;
            var step := Step(s', Advance(t, Go));
            && step.Some? && |step.value.log| > |s'.log|
            && var e := step.value.log[|s'.log|];
               && e.Started? && e.thread == t && e.deadline == s.threads[t].deadline
               && e.checkedAt == s.clock && e.at == s.clock + Elapsed(between)
               && (e.at < e.deadline <==> Elapsed(between) < s.threads[t].deadline - s.clock)
  {
    var checked := Step(s, Advance(t, Go)).value;
    assert checked.threads[t] == s.threads[t].(stage := Calling, mark := s.clock);
    OnlyTimePasses(checked, between, t);
  }

  lemma {:induction false} RunOne(s: State, a: Action, rest: seq<Action>)
    requires Fits(s) && Step(s, a).Some?
    ensures Run(s, [a] + rest) == Run(Step(s, a).value, rest)
  {
    assert ([a] + rest)[1..] == rest;
  }

  /** The one-thread states of the run below, between registration and the owner call. */
  function LateState(stage: Stage, gate: Option<ThreadId>, clock: int): State {
    State(1, false, map[7 := 0], [Slot(gate, false, None, None, 0, 0)],
          map[0 := Thread(stage, Dispatching(7), 0, [], 5, 0, None)], clock, [])
  }

  lemma {:induction false} LateStepsUngated()
    ensures var a := Advance(0, Go);
            && Step(LateState(Looking, None, 0), a) == Some(LateState(Budgeting, None, 0))
            && Step(LateState(Budgeting, None, 0), a) == Some(LateState(Waiting, None, 0))
  {
    var p := Thread(Looking, Dispatching(7), 0, [], 5, 0, None);
    assert map[0 := p][0 := p.(stage := Budgeting)] == map[0 := p.(stage := Budgeting)];
    assert map[0 := p.(stage := Budgeting)][0 := p.(stage := Waiting)] == map[0 := p.(stage := Waiting)];
  }

  lemma {:induction false} LateStepsGated()
    ensures var a := Advance(0, Go);
            && Step(LateState(Waiting, None, 0), a) == Some(LateState(Revalidating, Some(0), 0))
            && Step(LateState(Revalidating, Some(0), 0), a) == Some(LateState(Checking, Some(0), 0))
            && Step(LateState(Checking, Some(0), 0), a) == Some(LateState(Calling, Some(0), 0))
  {
    var p := Thread(Waiting, Dispatching(7), 0, [], 5, 0, None);
    assert map[0 := p][0 := p.(stage := Revalidating)] == map[0 := p.(stage := Revalidating)];
    assert map[0 := p.(stage := Revalidating)][0 := p.(stage := Checking)] == map[0 := p.(stage := Checking)];
    assert map[0 := p.(stage := Checking)][0 := p.(stage := Calling)] == map[0 := p.(stage := Calling)];
    assert [Slot(None, false, None, None, 0, 0)][0 := Slot(Some(0), false, None, None, 0, 0)] ==
        [Slot(Some(0), false, None, None, 0, 0)];
  }

  lemma {:induction false} LateEnds()
    ensures var a := Advance(0, Go);
            && Run(LateState(Calling, Some(0), 0), [Tick(9), a]).Some?
            && Run(LateState(Calling, Some(0), 0), [Tick(9), a]).value.log == [Started(0, 0, false, 5, 0, 5, 9)]
  {
    var a := Advance(0, Go);
    var s8 := LateState(Calling, Some(0), 9);
    var s9 := Step(s8, a).value;
    RunOne(s8, a, []);
    RunOne(LateState(Calling, Some(0), 0), Tick(9), [a]);
    assert [a] + [] == [a] && [Tick(9)] + [a] == [Tick(9), a];
  }

  predicate EndsLate(s: State, actions: seq<Action>)
    requires Fits(s)
  {
    Run(s, actions).Some? && Run(s, actions).value.log == [Started(0, 0, false, 5, 0, 5, 9)]
  }

  lemma {:induction false} LateOne(s: State, s': State, a: Action, rest: seq<Action>)
    requires Fits(s) && Fits(s') && Step(s, a) == Some(s') && EndsLate(s', rest)
    ensures EndsLate(s, [a] + rest)
  {
    RunOne(s, a, rest);
  }

  lemma {:induction false} LateFromLooking(a: Action, rest: seq<Action>)
    requires a == Advance(0, Go) && rest == [Tick(9), a]
    ensures EndsLate(LateState(Looking, None, 0), [a] + ([a] + ([a] + ([a] + ([a] + rest)))))
  {
    LateEnds();
    LateStepsGated();
    LateOne(LateState(Checking, Some(0), 0), LateState(Calling, Some(0), 0), a, rest);
    LateOne(LateState(Revalidating, Some(0), 0), LateState(Checking, Some(0), 0), a, [a] + rest);
    LateOne(LateState(Waiting, None, 0), LateState(Revalidating, Some(0), 0), a, [a] + ([a] + rest));
    LateStepsUngated();
    LateOne(LateState(Budgeting, None, 0), LateState(Waiting, None, 0), a, [a] + ([a] + ([a] + rest)));
    LateOne(LateState(Looking, None, 0), LateState(Budgeting, None, 0), a, [a] + ([a] + ([a] + ([a] + rest))));
  }

  /** A thread that is not scheduled between its last clock reading and the call does
      enter the owner after its deadline. */
  lemma {:induction false} LateCallIsPossible() returns (s0: State, actions: seq<Action>)
    ensures Initial(s0) && Run(s0, actions).Some?
    ensures Run(s0, actions).value.log == [Started(0, 0, false, 5, 0, 5, 9)]
  {
    s0 := State(1, false, map[], [], map[], 0, []);
    var a := Advance(0, Go);
    var s1 := Step(s0, Register(7)).value;
    var begin := Begin(0, Dispatching(7), 5);
    assert s1 == State(1, false, map[7 := 0], [Slot(None, false, None, None, 0, 0)], map[], 0, []);
    assert Step(s1, begin) == Some(LateState(Looking, None, 0));
    actions := [a] + ([a] + ([a] + ([a] + ([a] + [Tick(9), a]))));
    LateFromLooking(a, [Tick(9), a]);
    LateOne(s1, LateState(Looking, None, 0), begin, actions);
    LateOne(s0, s1, Register(7), [begin] + actions);
    actions := [Register(7)] + ([begin] + actions);
  }

  /** A dispatch that returns evidence finished its owner call before the deadline. */
  lemma {:induction false} DeliveredInTime(s0: State, actions: seq<Action>, i: nat)
    requires Initial(s0) && Run(s0, actions).Some?
    requires i < |Run(s0, actions).value.log| && Run(s0, actions).value.log[i].Delivered?
    ensures var e := Run(s0, actions).value.log[i];
            e.startedAt <= e.finishedAt < e.deadline
  {
    EveryRunIsSafe(s0, actions);
    var log := Run(s0, actions).value.log;
    assert EventSafe(log[..i], log[i]);
  }
}
