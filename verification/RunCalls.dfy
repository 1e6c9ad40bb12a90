/**
 What a call of the registry achieves. Whatever the other threads do, a dispatch returns
 evidence exactly when its owner returned, the clock was before the deadline then, and the
 evidence was about its run. Left alone, a dispatch delivers, an unregistration closes its
 owner, and a shutdown closes every owner in the order of registration.
 */
module RunCalls {
  import opened Wrappers
  import opened RunControls

  // ---- among other threads ----

  /** One action, and then others, lead from one state to another. */
  ghost predicate Reaches(s: State, a: Action, between: seq<Action>, u: State) {
    Fits(s) && Step(s, a).Some? && Run(Step(s, a).value, between) == Some(u) && Fits(u)
  }

  /** A thread that is not scheduled stands where its own step put it. */
  lemma {:induction false} ThenWaits(s: State, t: ThreadId, choice: Choice, between: seq<Action>, u: State)
    requires Reaches(s, Advance(t, choice), between, u) && Leaves(between, t)
    requires var s1 := Step(s, Advance(t, choice)).value; t in s1.threads && !s1.threads[t].stage.Idle?
    ensures var s1 := Step(s, Advance(t, choice)).value;
            t in u.threads && u.threads[t] == s1.threads[t] && u.clock == s1.clock + Elapsed(between)
  {
    OnlyTimePasses(Step(s, Advance(t, choice)).value, between, t);
  }

  /** The step of a thread alone: its record, the clock and the log. */
  lemma {:induction false} EntersOwner(s: State, t: ThreadId)
    requires Fits(s) && t in s.threads && s.threads[t].stage.Calling?
    ensures var step := Step(s, Advance(t, Go));
            var p := s.threads[t];
            && step.Some? && step.value.clock == s.clock && t in step.value.threads
            && step.value.threads[t] == p.(stage := Inside, mark := s.clock)
            && step.value.log == s.log +
               [Started(p.slot, t, !p.call.Dispatching?, p.deadline, p.mark, p.deadline - p.mark, s.clock)]
  {
  }

  lemma {:induction false} LeavesOwner(s: State, t: ThreadId, leave: Choice)
    requires Fits(s) && t in s.threads && s.threads[t].stage.Inside?
    ensures var step := Step(s, Advance(t, leave));
            var p := s.threads[t];
            && step.Some? && step.value.clock == s.clock && t in step.value.threads
            && step.value.threads[t].slot == p.slot && step.value.threads[t].deadline == p.deadline
            && step.value.threads[t].call == p.call && step.value.threads[t].mark == p.mark
            && step.value.log == s.log + [Ended(p.slot, t)]
            && (if leave == Raise then step.value.threads[t].stage.Releasing? && step.value.threads[t].finished.None?
                else step.value.threads[t].stage.Finishing?)
  {
  }

  lemma {:induction false} ReadsFinish(s: State, t: ThreadId)
    requires Fits(s) && t in s.threads && s.threads[t].stage.Finishing?
    ensures var step := Step(s, Advance(t, Go));
            var p := s.threads[t];
            && step.Some? && step.value.clock == s.clock && step.value.log == s.log && t in step.value.threads
            && step.value.threads[t] ==
               p.(stage := Releasing, finished := if s.clock < p.deadline then Some(s.clock) else None)
  {
  }

  lemma {:induction false} Delivers(s: State, t: ThreadId, release: Choice)
    requires Fits(s) && t in s.threads && s.threads[t].stage.Releasing? && s.threads[t].call.Dispatching?
    ensures var step := Step(s, Advance(t, release));
            var p := s.threads[t];
            && step.Some?
            && step.value.log == s.log +
               if p.finished.Some? && release != Raise
               then [Delivered(p.slot, t, p.deadline, p.mark, p.finished.value)] else []
  {
    var step := Step(s, Advance(t, release));
    if !(s.threads[t].finished.Some? && release != Raise) { assert s.log + [] == s.log; }
  }

  /** A dispatch whose owner returned: it delivers, with the instants at which it entered the
      owner and read the clock afterwards, if and only if that reading is before the deadline and
      the evidence is about its run; otherwise it delivers nothing. */
  lemma {:induction false} DispatchDeliversIff(
    s: State, t: ThreadId, b1: seq<Action>, u1: State, leave: Choice, b2: seq<Action>, u2: State,
    b3: seq<Action>, u3: State, release: Choice)
    requires t in s.threads && s.threads[t].stage.Calling? && s.threads[t].call.Dispatching?
    requires Reaches(s, Advance(t, Go), b1, u1) && Leaves(b1, t)
    requires leave != Raise && Reaches(u1, Advance(t, leave), b2, u2) && Leaves(b2, t)
    requires Reaches(u2, Advance(t, Go), b3, u3) && Leaves(b3, t)
    ensures var p := s.threads[t];
            var step := Step(u3, Advance(t, release));
            && Step(s, Advance(t, Go)).value.log ==
               s.log + [Started(p.slot, t, false, p.deadline, p.mark, p.deadline - p.mark, s.clock)]
            && u2.clock == s.clock + Elapsed(b1) + Elapsed(b2) && step.Some?
            && step.value.log == u3.log +
               if u2.clock < p.deadline && release != Raise
               then [Delivered(p.slot, t, p.deadline, s.clock, u2.clock)] else []
  {
    EntersOwner(s, t);
    ThenWaits(s, t, Go, b1, u1);
    LeavesOwner(u1, t, leave);
    ThenWaits(u1, t, leave, b2, u2);
    ReadsFinish(u2, t);
    ThenWaits(u2, t, Go, b3, u3);
    Delivers(u3, t, release);
  }

  /** A dispatch whose owner raised delivers nothing. */
  lemma {:induction false} RaisedDeliversNothing(
    s: State, t: ThreadId, b1: seq<Action>, u1: State, b2: seq<Action>, u2: State, release: Choice)
    requires t in s.threads && s.threads[t].stage.Calling? && s.threads[t].call.Dispatching?
    requires Reaches(s, Advance(t, Go), b1, u1) && Leaves(b1, t)
    requires Reaches(u1, Advance(t, Raise), b2, u2) && Leaves(b2, t)
    ensures Step(u2, Advance(t, release)).Some? && Step(u2, Advance(t, release)).value.log == u2.log
  {
    EntersOwner(s, t);
    ThenWaits(s, t, Go, b1, u1);
    LeavesOwner(u1, t, Raise);
    ThenWaits(u1, t, Raise, b2, u2);
    Delivers(u2, t, release);
    assert u2.log + [] == u2.log;
  }

  /** A thread before a gate that is held can do nothing until its deadline, and then only give up
      without entering the owner; before a free gate it can always take it. */
  lemma {:induction false} WaitsForGate(s: State, t: ThreadId, choice: Choice)
    requires Fits(s) && t in s.threads && s.threads[t].stage.Waiting?
    ensures var slot, p := s.slots[s.threads[t].slot], s.threads[t];
            var step := Step(s, Advance(t, choice));
            && (step.Some? <==> if choice == GiveUp then p.deadline <= s.clock else slot.gate == None)
            && (step.Some? && choice == GiveUp ==>
                  step.value.slots == s.slots && step.value.log == s.log && !Holding(step.value.threads[t].stage))
            && (step.Some? && choice != GiveUp ==> step.value.slots[p.slot].gate == Some(t))
  {
  }

  /** A registration is taken if and only if the registry is open, the run is not registered yet
      and there is room; the run then has a slot of its own, and nothing else changed. */
  lemma {:induction false} RegistersIff(s: State, id: RunId)
    requires Inv(s)
    ensures var s' := Step(s, Register(id)).value;
            if !s.closed && id !in s.controls && |s.controls| < s.capacity then
              && s'.controls == s.controls[id := |s.slots|] && |s'.slots| == |s.slots| + 1
              && s'.slots[..|s.slots|] == s.slots && s'.slots[|s.slots|] == Slot(None, false, None, None, 0, 0)
              && s'.threads == s.threads && s'.log == s.log && s'.closed == s.closed && s'.clock == s.clock
            else s' == s
  {
  }

  // ---- left alone ----

  /** Which state is how many steps of a thread after which. */
  type Path = (State, nat, State) -> bool

  ghost predicate Follows(go: Path, t: ThreadId) {
    && (forall s, s1 :: OneStep(s, t, s1) ==> go(s, 1, s1))
    && (forall s, m: nat, s1, n: nat, s2 :: go(s, m, s1) && go(s1, n, s2) ==> go(s, m + n, s2))
  }

  /** As runs of the registry. */
  function Advances(t: ThreadId, n: nat): seq<Action> {
    if n == 0 then [] else [Advance(t, Go)] + Advances(t, n - 1)
  }

  ghost predicate Goes(s: State, t: ThreadId, n: nat, s': State) { Run(s, Advances(t, n)) == Some(s') }

  ghost function Runs(t: ThreadId): Path { (s: State, n: nat, s': State) => Goes(s, t, n, s') }

  lemma {:induction false} RunThen(s: State, a: seq<Action>, s1: State, b: seq<Action>)
    requires Run(s, a) == Some(s1)
    ensures Run(s, a + b) == Run(s1, b)
    decreases |a|
  {
    if a == [] {
      assert a + b == b;
    } else {
      assert (a + b)[1..] == a[1..] + b;
      RunThen(Step(s, a[0]).value, a[1..], s1, b);
    }
  }

  lemma {:induction false} AdvancesAdd(t: ThreadId, m: nat, n: nat)
    ensures Advances(t, m + n) == Advances(t, m) + Advances(t, n)
    decreases m
  {
    if m == 0 {
      assert [] + Advances(t, n) == Advances(t, n);
    } else {
      AdvancesAdd(t, m - 1, n);
    }
  }

  lemma {:induction false} OneRuns(s: State, t: ThreadId, s1: State)
    requires OneStep(s, t, s1)
    ensures Goes(s, t, 1, s1)
  {
    RunOne(s, Advance(t, Go), []);
    assert Advances(t, 1) == [Advance(t, Go)] + [];
  }

  lemma {:induction false} GoesThen(s: State, t: ThreadId, m: nat, s1: State, n: nat, s2: State)
    requires Goes(s, t, m, s1) && Goes(s1, t, n, s2)
    ensures Goes(s, t, m + n, s2)
  {
    RunThen(s, Advances(t, m), s1, Advances(t, n));
    AdvancesAdd(t, m, n);
  }

  lemma {:induction false} RunsFollow(t: ThreadId)
    ensures Follows(Runs(t), t)
  {
    var go := Runs(t);
    forall s, s1 | OneStep(s, t, s1) ensures go(s, 1, s1) { OneRuns(s, t, s1); }
    forall s, m: nat, s1, n: nat, s2 | go(s, m, s1) && go(s1, n, s2) ensures go(s, m + n, s2) {
      GoesThen(s, t, m, s1, n, s2);
    }
  }

  ghost predicate OneStep(s: State, t: ThreadId, s1: State) { Fits(s) && Step(s, Advance(t, Go)) == Some(s1) }

  /** Between the states nothing changed but thread `t`, slot `k` and the log. */
  ghost predicate Same(s: State, s': State, t: ThreadId, k: SlotId) {
    && s'.capacity == s.capacity && s'.closed == s.closed && s'.controls == s.controls && s'.clock == s.clock
    && |s'.slots| == |s.slots| && (forall j: SlotId :: j < |s.slots| && j != k ==> s'.slots[j] == s.slots[j])
    && (forall u :: u != t ==> (u in s'.threads <==> u in s.threads))
    && (forall u :: u != t && u in s.threads ==> s'.threads[u] == s.threads[u])
  }

  /** A thread of slot `k` stands at `p`, its slot is `slot`, and `log` was logged. */
  ghost predicate Stands(s: State, t: ThreadId, p: Thread, k: SlotId, slot: Slot, log: seq<Event>) {
    Fits(s) && t in s.threads && s.threads[t] == p && k < |s.slots| && p.slot == k && s.slots[k] == slot && s.log == log
  }

  /** One step leads from `s` to `s'`. */
  ghost predicate Leads(s: State, t: ThreadId, k: SlotId, s': State) {
    OneStep(s, t, s') && Same(s, s', t, k)
  }

  lemma {:induction false} BudgetStep(s: State, t: ThreadId, p: Thread, k: SlotId, slot: Slot, log: seq<Event>)
    returns (s': State)
    requires Stands(s, t, p, k, slot, log) && p.stage.Budgeting? && s.clock < p.deadline
    ensures Leads(s, t, k, s') && Stands(s', t, p.(stage := Waiting), k, slot, log)
  {
    s' := Step(s, Advance(t, Go)).value;
  }

  lemma {:induction false} GateStep(s: State, t: ThreadId, p: Thread, k: SlotId, slot: Slot, log: seq<Event>)
    returns (s': State)
    requires Stands(s, t, p, k, slot, log) && p.stage.Waiting? && slot.gate == None
    ensures Leads(s, t, k, s')
    ensures Stands(s', t, p.(stage := if p.call.Dispatching? then Revalidating else Checking), k,
                   slot.(gate := Some(t)), log)
  {
    s' := Step(s, Advance(t, Go)).value;
  }

  lemma {:induction false} RevalidateStep(s: State, t: ThreadId, p: Thread, k: SlotId, slot: Slot, log: seq<Event>)
    returns (s': State)
    requires Stands(s, t, p, k, slot, log) && p.stage.Revalidating? && p.call.Dispatching?
    requires !slot.retired && p.call.id in s.controls && s.controls[p.call.id] == k
    ensures Leads(s, t, k, s') && Stands(s', t, p.(stage := Checking), k, slot, log)
  {
    s' := Step(s, Advance(t, Go)).value;
  }

  lemma {:induction false} CheckStep(s: State, t: ThreadId, p: Thread, k: SlotId, slot: Slot, log: seq<Event>)
    returns (s': State)
    requires Stands(s, t, p, k, slot, log) && p.stage.Checking? && s.clock < p.deadline
    ensures Leads(s, t, k, s') && Stands(s', t, p.(stage := Calling, mark := s.clock), k, slot, log)
  {
    s' := Step(s, Advance(t, Go)).value;
  }

  function StartOf(t: ThreadId, p: Thread, clock: int): Event {
    Started(p.slot, t, !p.call.Dispatching?, p.deadline, clock, p.deadline - clock, clock)
  }

  lemma {:induction false} EnterStep(s: State, t: ThreadId, p: Thread, k: SlotId, slot: Slot, log: seq<Event>)
    returns (s': State)
    requires Stands(s, t, p, k, slot, log) && p.stage.Calling? && p.mark == s.clock
    ensures Leads(s, t, k, s')
    ensures Stands(s', t, p.(stage := Inside), k, Entered(slot, t, p), log + [StartOf(t, p, s.clock)])
  {
    s' := Step(s, Advance(t, Go)).value;
  }

  lemma {:induction false} LeaveStep(s: State, t: ThreadId, p: Thread, k: SlotId, slot: Slot, log: seq<Event>)
    returns (s': State)
    requires Stands(s, t, p, k, slot, log) && p.stage.Inside?
    ensures Leads(s, t, k, s')
    ensures Stands(s', t, p.(stage := Finishing), k, slot.(inside := None), log + [Ended(k, t)])
  {
    s' := Step(s, Advance(t, Go)).value;
  }

  lemma {:induction false} FinishStep(s: State, t: ThreadId, p: Thread, k: SlotId, slot: Slot, log: seq<Event>)
    returns (s': State)
    requires Stands(s, t, p, k, slot, log) && p.stage.Finishing? && s.clock < p.deadline
    ensures Leads(s, t, k, s')
    ensures Stands(s', t, p.(stage := Releasing, finished := Some(s.clock)), k, slot, log)
  {
    s' := Step(s, Advance(t, Go)).value;
  }

  function DeliveryOf(t: ThreadId, p: Thread, clock: int): seq<Event> {
    if p.call.Dispatching? then [Delivered(p.slot, t, p.deadline, clock, clock)] else []
  }

  lemma {:induction false} ReleaseStep(s: State, t: ThreadId, p: Thread, k: SlotId, slot: Slot, log: seq<Event>)
    returns (s': State)
    requires Stands(s, t, p, k, slot, log) && p.stage.Releasing? && p.finished == Some(s.clock) && p.mark == s.clock
    requires Abandon(p).slot < |s.slots|
    ensures Leads(s, t, k, s') && Fits(s') && t in s'.threads && s'.threads[t] == Abandon(p)
    ensures s'.slots[k] == slot.(gate := None) && s'.log == log + DeliveryOf(t, p, s.clock)
  {
    s' := Step(s, Advance(t, Go)).value;
    assert log + [] == log;
  }

  // ---- through the gate and the owner ----

  /** A thread with time left before a free gate. */
  ghost predicate Ready(s: State, t: ThreadId, p: Thread, k: SlotId, slot: Slot, log: seq<Event>) {
    && Stands(s, t, p, k, slot, log) && p.stage.Budgeting? && s.clock < p.deadline && slot.gate == None
    && (p.call.Dispatching? ==> !slot.retired && p.call.id in s.controls && s.controls[p.call.id] == k)
  }

  lemma SameThen(s: State, s1: State, s2: State, t: ThreadId, k: SlotId)
    requires Same(s, s1, t, k) && Same(s1, s2, t, k)
    ensures Same(s, s2, t, k)
  {
  }

  lemma {:induction false} LeadsTwo(go: Path, s: State, s1: State, s2: State, t: ThreadId, k: SlotId)
    requires Follows(go, t)
    requires Leads(s, t, k, s1) && Leads(s1, t, k, s2)
    ensures go(s, 2, s2) && Same(s, s2, t, k)
  {
    assert go(s, 1 + 1, s2);
    SameThen(s, s1, s2, t, k);
  }

  lemma {:induction false} LeadsOne(go: Path, s: State, s1: State, t: ThreadId, k: SlotId)
    requires Follows(go, t)
    requires Leads(s, t, k, s1)
    ensures go(s, 1, s1)
  {
    assert go(s, 1, s1);
  }

  lemma {:induction false} TakesGate(go: Path, s: State, t: ThreadId, p: Thread, k: SlotId, slot: Slot, log: seq<Event>)
    returns (s': State)
    requires Follows(go, t)
    requires Ready(s, t, p, k, slot, log)
    ensures go(s, 2, s') && Same(s, s', t, k)
    ensures Stands(s', t, p.(stage := if p.call.Dispatching? then Revalidating else Checking), k,
                   slot.(gate := Some(t)), log)
  {
    var s1 := BudgetStep(s, t, p, k, slot, log);
    s' := GateStep(s1, t, p.(stage := Waiting), k, slot, log);
    LeadsTwo(go, s, s1, s', t, k);
  }

  lemma {:induction false} GetsToOwner(
      go: Path, s: State, t: ThreadId, p: Thread, k: SlotId, slot: Slot, log: seq<Event>)
    returns (s': State)
    requires Follows(go, t)
    requires Ready(s, t, p, k, slot, log)
    ensures go(s, if p.call.Dispatching? then 4 else 3, s') && Same(s, s', t, k)
    ensures Stands(s', t, p.(stage := Calling, mark := s.clock), k, slot.(gate := Some(t)), log)
  {
    var held := slot.(gate := Some(t));
    var s1 := TakesGate(go, s, t, p, k, slot, log);
    if p.call.Dispatching? {
      var s2 := RevalidateStep(s1, t, p.(stage := Revalidating), k, held, log);
      s' := CheckStep(s2, t, p.(stage := Checking), k, held, log);
      LeadsTwo(go, s1, s2, s', t, k);
      assert go(s, 2 + 2, s');
    } else {
      s' := CheckStep(s1, t, p.(stage := Checking), k, held, log);
      LeadsOne(go, s1, s', t, k);
      assert go(s, 2 + 1, s');
    }
    SameThen(s, s1, s', t, k);
  }

  lemma {:induction false} PassesOwner(
      go: Path, s: State, t: ThreadId, p: Thread, k: SlotId, slot: Slot, log: seq<Event>)
    returns (s': State)
    requires Follows(go, t)
    requires Stands(s, t, p, k, slot, log) && p.stage.Calling? && p.mark == s.clock
    ensures go(s, 2, s') && Same(s, s', t, k)
    ensures Stands(s', t, p.(stage := Finishing), k, Entered(slot, t, p).(inside := None),
                   log + [StartOf(t, p, s.clock), Ended(k, t)])
  {
    var s1 := EnterStep(s, t, p, k, slot, log);
    s' := LeaveStep(s1, t, p.(stage := Inside), k, Entered(slot, t, p), log + [StartOf(t, p, s.clock)]);
    assert log + [StartOf(t, p, s.clock)] + [Ended(k, t)] == log + [StartOf(t, p, s.clock), Ended(k, t)];
    LeadsTwo(go, s, s1, s', t, k);
  }

  lemma {:induction false} LetsGo(go: Path, s: State, t: ThreadId, p: Thread, k: SlotId, slot: Slot, log: seq<Event>)
    returns (s': State)
    requires Follows(go, t)
    requires Stands(s, t, p, k, slot, log) && p.stage.Finishing? && p.mark == s.clock < p.deadline
    requires Abandon(p).slot < |s.slots|
    ensures go(s, 2, s') && Same(s, s', t, k) && Fits(s') && t in s'.threads
    ensures s'.threads[t] == Abandon(p.(stage := Releasing, finished := Some(s.clock)))
    ensures s'.slots[k] == slot.(gate := None) && s'.log == log + DeliveryOf(t, p, s.clock)
  {
    var s1 := FinishStep(s, t, p, k, slot, log);
    s' := ReleaseStep(s1, t, p.(stage := Releasing, finished := Some(s.clock)), k, slot, log);
    LeadsTwo(go, s, s1, s', t, k);
  }

  /** The record of a thread that turned from the slot of `p` to what comes next. */
  function Served(p: Thread, clock: int): Thread {
    Abandon(p.(stage := Releasing, mark := clock, finished := Some(clock)))
  }

  function Left(slot: Slot, p: Thread): Slot {
    slot.(inside := None, closes := slot.closes + if p.call.Dispatching? then 0 else 1)
  }

  function Seen(t: ThreadId, p: Thread, clock: int): seq<Event> {
    [StartOf(t, p, clock), Ended(p.slot, t)] + DeliveryOf(t, p, clock)
  }

  lemma {:induction false} FinishesCall(
      go: Path, s: State, t: ThreadId, p: Thread, k: SlotId, slot: Slot, log: seq<Event>)
    returns (s': State)
    requires Follows(go, t)
    requires Stands(s, t, p, k, slot, log) && p.stage.Calling? && p.mark == s.clock < p.deadline
    requires Abandon(p).slot < |s.slots|
    ensures go(s, 4, s') && Same(s, s', t, k) && Fits(s') && t in s'.threads
    ensures s'.threads[t] == Served(p, s.clock) && s'.slots[k] == Left(slot, p).(gate := None)
    ensures s'.log == log + Seen(t, p, s.clock)
  {
    var s1 := PassesOwner(go, s, t, p, k, slot, log);
    var log2 := log + [StartOf(t, p, s.clock), Ended(k, t)];
    s' := LetsGo(go, s1, t, p.(stage := Finishing), k, Entered(slot, t, p).(inside := None), log2);
    assert go(s, 2 + 2, s');
    SameThen(s, s1, s', t, k);
    assert log2 + DeliveryOf(t, p, s.clock) == log + Seen(t, p, s.clock);
  }

  lemma {:induction false} AddSteps(go: Path, s: State, t: ThreadId, dispatching: bool, s1: State, s': State)
    requires Follows(go, t)
    requires go(s, if dispatching then 4 else 3, s1) && go(s1, 4, s')
    ensures go(s, if dispatching then 8 else 7, s')
  {
    if dispatching { assert go(s, 4 + 4, s'); } else { assert go(s, 3 + 4, s'); }
  }

  /** A thread with time left before a free gate gets through the owner in one go. */
  lemma {:induction false} ServesSlot(
      go: Path, s: State, t: ThreadId, p: Thread, k: SlotId, slot: Slot, log: seq<Event>)
    returns (s': State)
    requires Follows(go, t)
    requires Ready(s, t, p, k, slot, log) && Abandon(p).slot < |s.slots|
    ensures go(s, if p.call.Dispatching? then 8 else 7, s') && Same(s, s', t, k) && Fits(s') && t in s'.threads
    ensures s'.threads[t] == Served(p, s.clock) && s'.slots[k] == Left(slot, p) && s'.log == log + Seen(t, p, s.clock)
  {
    var s1 := GetsToOwner(go, s, t, p, k, slot, log);
    s' := FinishesCall(go, s1, t, p.(stage := Calling, mark := s.clock), k, slot.(gate := Some(t)), log);
    AddSteps(go, s, t, p.call.Dispatching?, s1, s');
    SameThen(s, s1, s', t, k);
  }

  // ---- whole calls ----

  function Begun(s: State, call: Call, timeout: int): Thread {
    Thread(Looking, call, 0, [], s.clock + timeout, s.clock, None)
  }

  predicate Free(s: State, t: ThreadId) { t in s.threads ==> s.threads[t].stage.Idle? }

  lemma BeginStep(s: State, t: ThreadId, call: Call, timeout: int)
    requires Fits(s) && Free(s, t) && timeout > 0
    ensures Step(s, Begin(t, call, timeout)) == Some(Move(s, t, Begun(s, call, timeout)))
    ensures Fits(Move(s, t, Begun(s, call, timeout)))
  {
  }

  /** A free gate has nobody behind it. */
  lemma {:induction false} FreeIsEmpty(s: State, k: SlotId)
    requires Inv(s) && k < |s.slots| && s.slots[k].gate == None
    ensures s.slots[k].inside == None
  {
    assert SlotOk(s.threads, k, s.slots[k]);
    if s.slots[k].inside.Some? {
      var u := s.slots[k].inside.value;
      assert ThreadOk(s.slots, s.clock, u, s.threads[u]);
    }
  }

  /** Nothing but the log and thread `t`, which is done. */
  ghost predicate OnlyLogged(s: State, s': State, t: ThreadId, events: seq<Event>) {
    && s'.capacity == s.capacity && s'.closed == s.closed && s'.controls == s.controls && s'.clock == s.clock
    && s'.slots == s.slots && s'.log == s.log + events && t in s'.threads && s'.threads[t].stage.Idle?
    && (forall u :: u != t ==> (u in s'.threads <==> u in s.threads))
    && (forall u :: u != t && u in s.threads ==> s'.threads[u] == s.threads[u])
  }

  lemma {:induction false} DispatchLooks(s: State, t: ThreadId, p: Thread, id: RunId) returns (s': State)
    requires Fits(s) && t in s.threads && s.threads[t] == p && p.stage.Looking? && p.call == Dispatching(id)
    requires !s.closed && id in s.controls && p.rest == []
    ensures var k := s.controls[id];
            Leads(s, t, k, s') && Stands(s', t, p.(stage := Budgeting, slot := k), k, s.slots[k], s.log)
  {
    s' := Step(s, Advance(t, Go)).value;
  }

  lemma {:induction false} DispatchServes(go: Path, s: State, t: ThreadId, p: Thread, id: RunId) returns (s': State)
    requires Follows(go, t)
    requires Fits(s) && t in s.threads && s.threads[t] == p && p.stage.Looking? && p.call == Dispatching(id)
    requires !s.closed && id in s.controls && p.rest == [] && s.clock < p.deadline
    requires var slot := s.slots[s.controls[id]]; slot.gate == None && slot.inside == None && !slot.retired
    ensures var k := s.controls[id];
            && go(s, 9, s')
            && OnlyLogged(s, s', t, [Started(k, t, false, p.deadline, s.clock, p.deadline - s.clock, s.clock),
                                     Ended(k, t), Delivered(k, t, p.deadline, s.clock, s.clock)])
  {
    var k := s.controls[id];
    var s1 := DispatchLooks(s, t, p, id);
    s' := ServesSlot(go, s1, t, p.(stage := Budgeting, slot := k), k, s.slots[k], s.log);
    assert go(s, 1 + 8, s');
    SameThen(s, s1, s', t, k);
    assert s'.slots == s.slots;
  }

  /** A dispatch to a registered run with a free gate, left alone from any reachable state:
      the owner is entered and left once, the evidence is delivered, nothing else changes. */
  lemma {:induction false} DispatchAlone(s: State, t: ThreadId, id: RunId, timeout: int) returns (s': State)
    requires Inv(s) && Free(s, t) && timeout > 0
    requires !s.closed && id in s.controls && s.slots[s.controls[id]].gate == None
    ensures var k, deadline := s.controls[id], s.clock + timeout;
            && Step(s, Begin(t, Dispatching(id), timeout)).Some?
            && Goes(Step(s, Begin(t, Dispatching(id), timeout)).value, t, 9, s')
            && OnlyLogged(s, s', t, [Started(k, t, false, deadline, s.clock, timeout, s.clock), Ended(k, t),
                                     Delivered(k, t, deadline, s.clock, s.clock)])
  {
    var go := Runs(t);
    RunsFollow(t);
    BeginStep(s, t, Dispatching(id), timeout);
    FreeIsEmpty(s, s.controls[id]);
    var p := Begun(s, Dispatching(id), timeout);
    s' := DispatchServes(go, Move(s, t, p), t, p, id);
  }

  /** A dispatch to a run that is not registered, or to a closed registry, ends at once and
      changes nothing. */
  lemma {:induction false} DispatchRefused(s: State, t: ThreadId, id: RunId, timeout: int) returns (s': State)
    requires Inv(s) && Free(s, t) && timeout > 0 && (s.closed || id !in s.controls)
    ensures Step(s, Begin(t, Dispatching(id), timeout)).Some?
    ensures Goes(Step(s, Begin(t, Dispatching(id), timeout)).value, t, 1, s') && OnlyLogged(s, s', t, [])
  {
    var go := Runs(t);
    RunsFollow(t);
    BeginStep(s, t, Dispatching(id), timeout);
    var s0 := Move(s, t, Begun(s, Dispatching(id), timeout));
    s' := Step(s0, Advance(t, Go)).value;
    assert go(s0, 1, s');
    assert s.log + [] == s.log;
  }

  lemma {:induction false} UnregisterLooks(s: State, t: ThreadId, p: Thread, id: RunId) returns (s': State)
    requires Fits(s) && t in s.threads && s.threads[t] == p && p.stage.Looking? && p.call == Unregistering(id)
    requires id in s.controls && p.rest == []
    ensures var k := s.controls[id];
            && OneStep(s, t, s') && s'.controls == s.controls - {id}
            && Same(s.(controls := s.controls - {id}), s', t, k)
            && Stands(s', t, p.(stage := Budgeting, slot := k), k, RetiredBy(s.slots[k], t, p.deadline), s.log)
  {
    s' := Step(s, Advance(t, Go)).value;
  }

  lemma {:induction false} UnregisterServes(go: Path, s: State, t: ThreadId, p: Thread, id: RunId) returns (s': State)
    requires Follows(go, t)
    requires Fits(s) && t in s.threads && s.threads[t] == p && p.stage.Looking? && p.call == Unregistering(id)
    requires id in s.controls && p.rest == [] && s.clock < p.deadline
    requires var slot := s.slots[s.controls[id]]; slot.gate == None && slot.inside == None && slot.closes == 0
    ensures var k := s.controls[id];
            && go(s, 8, s') && Same(s.(controls := s.controls - {id}), s', t, k)
            && t in s'.threads && s'.threads[t].stage.Idle?
            && s'.slots[k] == Slot(None, true, Some(t), None, 1, p.deadline)
            && s'.log == s.log + [Started(k, t, true, p.deadline, s.clock, p.deadline - s.clock, s.clock), Ended(k, t)]
  {
    var k := s.controls[id];
    var s1 := UnregisterLooks(s, t, p, id);
    var p1 := p.(stage := Budgeting, slot := k);
    s' := ServesSlot(go, s1, t, p1, k, RetiredBy(s.slots[k], t, p.deadline), s.log);
    assert go(s, 1 + 7, s');
    SameThen(s.(controls := s.controls - {id}), s1, s', t, k);
    assert Seen(t, p1, s.clock) == [StartOf(t, p1, s.clock), Ended(k, t)];
  }

  /** An unregistration of a run with a free gate, left alone from any reachable state: the run
      is gone, its owner was asked to close once and left, its slot is retired for good. */
  lemma {:induction false} UnregisterAlone(s: State, t: ThreadId, id: RunId, timeout: int) returns (s': State)
    requires Inv(s) && Free(s, t) && timeout > 0 && id in s.controls && s.slots[s.controls[id]].gate == None
    ensures var k, deadline := s.controls[id], s.clock + timeout;
            && Step(s, Begin(t, Unregistering(id), timeout)).Some?
            && Goes(Step(s, Begin(t, Unregistering(id), timeout)).value, t, 8, s')
            && Same(s.(controls := s.controls - {id}), s', t, k) && t in s'.threads && s'.threads[t].stage.Idle?
            && s'.slots[k] == Slot(None, true, Some(t), None, 1, deadline)
            && s'.log == s.log + [Started(k, t, true, deadline, s.clock, timeout, s.clock), Ended(k, t)]
  {
    var go := Runs(t);
    RunsFollow(t);
    BeginStep(s, t, Unregistering(id), timeout);
    FreeIsEmpty(s, s.controls[id]);
    assert SlotOk(s.threads, s.controls[id], s.slots[s.controls[id]]);
    var p := Begun(s, Unregistering(id), timeout);
    s' := UnregisterServes(go, Move(s, t, p), t, p, id);
  }

  // ---- shutdown ----

  /** The owners are entered to close one after the other. */
  function CloseLog(t: ThreadId, deadline: int, clock: int, work: seq<SlotId>): seq<Event> {
    if work == [] then []
    else
      [Started(work[0], t, true, deadline, clock, deadline - clock, clock), Ended(work[0], t)]
      + CloseLog(t, deadline, clock, work[1..])
  }

  function Closed(slot: Slot): Slot { slot.(inside := None, closes := slot.closes + 1) }

  /** Nothing but thread `t`, the log, and the slots of `work`, each closed. */
  ghost predicate ClosedAll(s: State, s': State, t: ThreadId, work: seq<SlotId>) {
    && s'.capacity == s.capacity && s'.closed == s.closed && s'.controls == s.controls && s'.clock == s.clock
    && |s'.slots| == |s.slots|
    && (forall k: SlotId :: k < |s.slots| ==> s'.slots[k] == if k in work then Closed(s.slots[k]) else s.slots[k])
    && (forall u :: u != t ==> (u in s'.threads <==> u in s.threads))
    && (forall u :: u != t && u in s.threads ==> s'.threads[u] == s.threads[u])
  }

  /** A closing thread before the slots it still has to close, all gates free. */
  ghost predicate Closing(s: State, t: ThreadId, p: Thread, work: seq<SlotId>) {
    && Fits(s) && t in s.threads && s.threads[t] == p && p.stage.Budgeting? && p.call.Stopping?
    && s.clock < p.deadline && work != [] && Distinct(work) && p.slot == work[0] && p.rest == work[1..]
    && forall i :: 0 <= i < |work| ==> work[i] < |s.slots| && s.slots[work[i]].gate == None
  }

  lemma {:induction false} ClosesFirst(
      go: Path, s: State, t: ThreadId, p: Thread, work: seq<SlotId>) returns (s': State)
    requires Follows(go, t)
    requires Closing(s, t, p, work)
    ensures go(s, 7, s') && ClosedAll(s, s', t, [work[0]]) && Fits(s') && t in s'.threads
    ensures s'.threads[t] == Served(p, s.clock)
    ensures s'.log == s.log + [Started(work[0], t, true, p.deadline, s.clock, p.deadline - s.clock, s.clock),
                               Ended(work[0], t)]
  {
    var k := work[0];
    assert p.rest != [] ==> p.rest[0] == work[1];
    s' := ServesSlot(go, s, t, p, k, s.slots[k], s.log);
    assert Seen(t, p, s.clock) == [StartOf(t, p, s.clock), Ended(k, t)];
  }

  lemma {:induction false} ClosingOn(s: State, t: ThreadId, p: Thread, work: seq<SlotId>, s': State)
    requires Closing(s, t, p, work) && |work| > 1 && ClosedAll(s, s', t, [work[0]]) && Fits(s') && t in s'.threads
    requires s'.threads[t] == Served(p, s.clock)
    ensures Closing(s', t, Served(p, s.clock), work[1..]) && Served(p, s.clock).deadline == p.deadline
  {
    assert work[1..][1..] == p.rest[1..];
    forall i | 0 <= i < |work[1..]| ensures work[1..][i] < |s'.slots| && s'.slots[work[1..][i]].gate == None {
      assert work[1..][i] == work[i + 1] != work[0];
    }
  }

  lemma {:induction false} ClosedAllThen(s: State, s1: State, s': State, t: ThreadId, work: seq<SlotId>)
    requires work != [] && Distinct(work) && ClosedAll(s, s1, t, [work[0]]) && ClosedAll(s1, s', t, work[1..])
    ensures ClosedAll(s, s', t, work)
  {
    assert forall k :: k in work <==> k == work[0] || k in work[1..];
    assert work[0] !in work[1..];
  }

  lemma {:induction false} ClosesLast(go: Path, s: State, t: ThreadId, p: Thread, work: seq<SlotId>) returns (s': State)
    requires Follows(go, t)
    requires Closing(s, t, p, work) && |work| == 1
    ensures go(s, 7, s') && ClosedAll(s, s', t, work) && t in s'.threads && s'.threads[t].stage.Idle?
    ensures s'.log == s.log + CloseLog(t, p.deadline, s.clock, work)
  {
    s' := ClosesFirst(go, s, t, p, work);
    assert work[1..] == [] && work == [work[0]];
    assert CloseLog(t, p.deadline, s.clock, work[1..]) == [];
  }

  lemma {:induction false} CloseLogThen(log: seq<Event>, t: ThreadId, deadline: int, clock: int, work: seq<SlotId>)
    requires work != []
    ensures log + [Started(work[0], t, true, deadline, clock, deadline - clock, clock), Ended(work[0], t)]
            + CloseLog(t, deadline, clock, work[1..]) == log + CloseLog(t, deadline, clock, work)
  {
  }

  lemma {:induction false} ClosesRest(
      go: Path, s: State, t: ThreadId, p: Thread, work: seq<SlotId>) returns (s': State, n: nat)
    requires Follows(go, t)
    requires Closing(s, t, p, work)
    ensures go(s, n, s') && ClosedAll(s, s', t, work) && t in s'.threads && s'.threads[t].stage.Idle?
    ensures s'.log == s.log + CloseLog(t, p.deadline, s.clock, work)
    decreases |work|
  {
    if |work| == 1 {
      s' := ClosesLast(go, s, t, p, work);
      n := 7;
    } else {
      var s1 := ClosesFirst(go, s, t, p, work);
      ClosingOn(s, t, p, work, s1);
      s', n := ClosesRest(go, s1, t, Served(p, s.clock), work[1..]);
      assert go(s, 7 + n, s');
      n := 7 + n;
      ClosedAllThen(s, s1, s', t, work);
      CloseLogThen(s.log, t, p.deadline, s.clock, work);
    }
  }

  lemma {:induction false} StopStep(s: State, t: ThreadId, p: Thread) returns (s': State)
    requires Fits(s) && t in s.threads && s.threads[t] == p && p.stage.Looking? && p.call.Stopping? && !s.closed
    requires LiveSlots(s.controls, |s.slots|) != []
    ensures var work := LiveSlots(s.controls, |s.slots|);
            && OneStep(s, t, s') && s'.closed && s'.controls == map[] && s'.clock == s.clock && s'.log == s.log
            && s'.slots == RetireAll(s, t).slots && |s'.slots| == |s.slots| && t in s'.threads
            && s'.threads[t] == p.(stage := Budgeting, slot := work[0], rest := work[1..])
            && forall u :: u in s'.threads && u != t ==> u in s.threads && s'.threads[u] == s.threads[u]
  {
    s' := Step(s, Advance(t, Go)).value;
  }

  lemma {:induction false} StopLooks(s: State, t: ThreadId, p: Thread) returns (s': State)
    requires Fits(s) && t in s.threads && s.threads[t] == p && p.stage.Looking? && p.call.Stopping? && !s.closed
    requires forall id :: id in s.controls ==> s.slots[s.controls[id]].gate == None
    requires s.clock < p.deadline && LiveSlots(s.controls, |s.slots|) != []
    ensures var work := LiveSlots(s.controls, |s.slots|);
            && OneStep(s, t, s') && s'.closed && s'.controls == map[] && s'.clock == s.clock && s'.log == s.log
            && s'.slots == RetireAll(s, t).slots && |s'.slots| == |s.slots|
            && Closing(s', t, p.(stage := Budgeting, slot := work[0], rest := work[1..]), work)
  {
    var work := LiveSlots(s.controls, |s.slots|);
    s' := StopStep(s, t, p);
    LiveSlotsAre(s.controls, |s.slots|);
    forall i | 0 <= i < |work| ensures work[i] < |s'.slots| && s'.slots[work[i]].gate == None {
      assert work[i] in work && work[i] in s.controls.Values;
    }
    assert work[0] in work;
  }

  /** What shutdown makes of a slot. */
  function Shut(s: State, t: ThreadId, deadline: int, k: SlotId): Slot
    requires k < |s.slots|
  {
    if k in s.controls.Values then Slot(None, true, Some(t), None, 1, deadline) else s.slots[k]
  }

  /** What a shutdown leaves. */
  ghost predicate Stopped(s: State, t: ThreadId, deadline: int, s': State) {
    && s'.closed && s'.controls == map[] && s'.clock == s.clock && |s'.slots| == |s.slots|
    && t in s'.threads && s'.threads[t].stage.Idle?
    && s'.log == s.log + CloseLog(t, deadline, s.clock, LiveSlots(s.controls, |s.slots|))
    && forall k: SlotId :: k < |s.slots| ==> s'.slots[k] == Shut(s, t, deadline, k)
  }

  lemma {:induction false} StopServes(go: Path, s: State, t: ThreadId, p: Thread) returns (s': State, n: nat)
    requires Follows(go, t)
    requires Inv(s) && t in s.threads && s.threads[t] == p && p.stage.Looking? && p.call.Stopping? && !s.closed
    requires forall id :: id in s.controls ==> s.slots[s.controls[id]].gate == None
    requires s.clock < p.deadline && LiveSlots(s.controls, |s.slots|) != []
    ensures go(s, n, s') && Stopped(s, t, p.deadline, s')
  {
    var work := LiveSlots(s.controls, |s.slots|);
    var s1 := StopLooks(s, t, p);
    s', n := ClosesRest(go, s1, t, p.(stage := Budgeting, slot := work[0], rest := work[1..]), work);
    assert go(s, 1 + n, s');
    n := n + 1;
    StopCloses(s, t, s1, s', work);
  }

  lemma {:induction false} StopsEmpty(go: Path, s: State, t: ThreadId, p: Thread) returns (s': State)
    requires Follows(go, t)
    requires Inv(s) && t in s.threads && s.threads[t] == p && p.stage.Looking? && p.call.Stopping? && !s.closed
    requires LiveSlots(s.controls, |s.slots|) == []
    ensures go(s, 1, s') && Stopped(s, t, p.deadline, s')
  {
    s' := Step(s, Advance(t, Go)).value;
    RetireAllIs(s, t);
    LiveSlotsAre(s.controls, |s.slots|);
    assert go(s, 1, s');
    assert s.log + [] == s.log;
  }

  lemma {:induction false} StopsFrom(go: Path, s: State, t: ThreadId, p: Thread) returns (s': State, n: nat)
    requires Follows(go, t)
    requires Inv(s) && t in s.threads && s.threads[t] == p && p.stage.Looking? && p.call.Stopping? && !s.closed
    requires (forall id :: id in s.controls ==> s.slots[s.controls[id]].gate == None) && s.clock < p.deadline
    ensures go(s, n, s') && Stopped(s, t, p.deadline, s')
  {
    if LiveSlots(s.controls, |s.slots|) == [] {
      s' := StopsEmpty(go, s, t, p);
      n := 1;
    } else {
      s', n := StopServes(go, s, t, p);
    }
  }

  lemma {:induction false} Begins(s: State, t: ThreadId, call: Call, timeout: int) returns (s0: State)
    requires Inv(s) && Free(s, t) && timeout > 0
    ensures Step(s, Begin(t, call, timeout)) == Some(s0) && Inv(s0)
    ensures t in s0.threads && s0.threads[t] == Begun(s, call, timeout)
    ensures s0.controls == s.controls && s0.slots == s.slots && s0.closed == s.closed && s0.clock == s.clock
    ensures s0.log == s.log
  {
    s0 := Move(s, t, Begun(s, call, timeout));
    MoveKeeps(s, t, Begun(s, call, timeout));
  }

  lemma StoppedSince(s: State, t: ThreadId, s0: State, deadline: int, s': State)
    requires Stopped(s0, t, deadline, s')
    requires s0.controls == s.controls && s0.slots == s.slots && s0.clock == s.clock && s0.log == s.log
    ensures Stopped(s, t, deadline, s')
  {
  }

  /** A shutdown with all gates free, left alone from any reachable state: some steps of its
      thread alone, in runs of the registry for example (`RunsFollow`), lead to a closed and
      empty registry in which every registered owner was asked to close once, in the order in
      which they were registered. */
  lemma {:induction false} StopAlone(go: Path, s: State, t: ThreadId, timeout: int)
    returns (s0: State, s': State, n: nat)
    requires Follows(go, t)
    requires Inv(s) && Free(s, t) && timeout > 0 && !s.closed
    requires forall id :: id in s.controls ==> s.slots[s.controls[id]].gate == None
    ensures Step(s, Begin(t, Stopping, timeout)) == Some(s0) && go(s0, n, s')
    ensures Stopped(s, t, s.clock + timeout, s')
  {
    s0 := Begins(s, t, Stopping, timeout);
    s', n := StopsFrom(go, s0, t, s0.threads[t]);
    StoppedSince(s, t, s0, s.clock + timeout, s');
  }

  lemma {:induction false} StopCloses(s: State, t: ThreadId, s1: State, s': State, work: seq<SlotId>)
    requires Inv(s) && t in s.threads && work == LiveSlots(s.controls, |s.slots|)
    requires forall id :: id in s.controls ==> s.slots[s.controls[id]].gate == None
    requires s1.slots == RetireAll(s, t).slots && ClosedAll(s1, s', t, work)
    ensures forall k: SlotId :: k < |s.slots| ==> s'.slots[k] == Shut(s, t, s.threads[t].deadline, k)
  {
    LiveSlotsAre(s.controls, |s.slots|);
    RetireAllIs(s, t);
    forall k: SlotId | k < |s.slots| ensures s'.slots[k] == Shut(s, t, s.threads[t].deadline, k) {
      if k in work {
        assert k in s.controls.Values;
        FreeIsEmpty(s, k);
        assert SlotOk(s.threads, k, s.slots[k]);
      }
    }
  }

  // ---- the first delivery ----

  lemma {:induction false} Registers(s0: State, id: RunId) returns (s1: State)
    requires Initial(s0)
    ensures Step(s0, Register(id)) == Some(s1) && Inv(s1) && Fits(s0) && s1.clock == s0.clock && s1.log == []
    ensures !s1.closed && s1.threads == map[] && id in s1.controls && s1.controls[id] == 0 && s1.slots[0].gate == None
  {
    assert SafeLog(s0.log);
    StepKeeps(s0, Register(id));
    s1 := Step(s0, Register(id)).value;
  }

  /** A registration and a dispatch in an empty registry deliver evidence. */
  lemma {:induction false} FirstDelivery(s0: State, t: ThreadId, id: RunId, timeout: int) returns (s': State)
    requires Initial(s0) && timeout > 0
    ensures Run(s0, [Register(id), Begin(t, Dispatching(id), timeout)] + Advances(t, 9)) == Some(s')
    ensures var deadline := s0.clock + timeout;
            s'.log == [Started(0, t, false, deadline, s0.clock, timeout, s0.clock), Ended(0, t),
                       Delivered(0, t, deadline, s0.clock, s0.clock)]
  {
    var s1 := Registers(s0, id);
    var begin := Begin(t, Dispatching(id), timeout);
    s' := DispatchAlone(s1, t, id, timeout);
    RunOne(s1, begin, Advances(t, 9));
    RunOne(s0, Register(id), [begin] + Advances(t, 9));
    assert [Register(id), begin] + Advances(t, 9) == [Register(id)] + ([begin] + Advances(t, 9));
  }
}
