/**
 What the registry owes the owners it retires. In every run no owner is forgotten; once all
 calls are over it is decided for good which owners were closed.
 */
module RunCleanup {
  import opened Wrappers
  import opened RunControls

  // ---- cleanup ----

  predicate Pending(stage: Stage) { stage.Budgeting? || stage.Waiting? || stage.Checking? || stage.Calling? }

  /** The call of a thread still has slot `k` to close. */
  predicate Owes(p: Thread, k: SlotId) {
    HasSlot(p.stage) && !p.call.Dispatching? && (k in p.rest || (k == p.slot && Pending(p.stage)))
  }

  /** The slot will still be closed by the call that retired it. */
  predicate StillOwed(threads: map<ThreadId, Thread>, k: SlotId, slot: Slot) {
    && slot.closer.Some? && slot.closer.value in threads
    && Owes(threads[slot.closer.value], k) && threads[slot.closer.value].deadline == slot.due
  }

  /** A slot that nobody retired is registered; a retired slot was closed, or will be, or the
      call that retired it ran out of time. */
  predicate CleanSlot(threads: map<ThreadId, Thread>, clock: int, k: SlotId, slot: Slot) {
    slot.retired && slot.closes == 0 ==> StillOwed(threads, k, slot) || slot.due <= clock
  }

  ghost predicate CleanupInv(s: State) {
    && (forall k: SlotId :: k < |s.slots| && !s.slots[k].retired ==> k in s.controls.Values)
    && (forall k: SlotId :: k < |s.slots| ==> CleanSlot(s.threads, s.clock, k, s.slots[k]))
  }

  /** What one thread's step may do to a slot: nothing that matters for cleanup but to close it. */
  predicate SameCleanup(slot: Slot, slot': Slot) {
    && slot'.retired == slot.retired && slot'.closer == slot.closer && slot'.due == slot.due
    && slot'.closes >= slot.closes
  }

  /** A step forgets nothing that its thread owes, unless it closes it or the time is over. */
  predicate KeepsOwing(clock: int, p: Thread, p': Thread, k: SlotId, closed: bool) {
    Owes(p, k) ==> closed || p.deadline <= clock || (Owes(p', k) && p'.deadline == p.deadline)
  }

  lemma {:induction false} MoveCleans(s: State, s': State, t: ThreadId, p': Thread)
    requires CleanupInv(s) && t in s.threads
    requires t in s'.threads && s'.threads[t] == p' && s'.clock == s.clock && s'.controls == s.controls
    requires forall u :: u in s.threads && u != t ==> u in s'.threads && s'.threads[u] == s.threads[u]
    requires |s'.slots| == |s.slots|
    requires forall k: SlotId :: k < |s.slots| ==>
               && SameCleanup(s.slots[k], s'.slots[k])
               && KeepsOwing(s.clock, s.threads[t], p', k, s'.slots[k].closes > 0)
    ensures CleanupInv(s')
  {
    forall k: SlotId | k < |s'.slots| ensures CleanSlot(s'.threads, s'.clock, k, s'.slots[k]) {
      assert CleanSlot(s.threads, s.clock, k, s.slots[k]);
      assert SameCleanup(s.slots[k], s'.slots[k]);
      assert KeepsOwing(s.clock, s.threads[t], p', k, s'.slots[k].closes > 0);
    }
  }

  /** What a step after the first lock region does to its thread: it turns to the next slot, or
      moves on in the same one, and gives a pending slot up only when it closes it or the
      time is over. */
  predicate MovesOn(clock: int, p: Thread, p': Thread) {
    || (p' == Abandon(p) && (!Pending(p.stage) || p.deadline <= clock))
    || (&& p'.call == p.call && p'.slot == p.slot && p'.rest == p.rest && p'.deadline == p.deadline
        && HasSlot(p'.stage)
        && (Pending(p'.stage) ==> Pending(p.stage) || p.call.Dispatching?)
        && (Pending(p.stage) && !Pending(p'.stage) ==>
              p.stage.Calling? || p.deadline <= clock || p.call.Dispatching?))
  }

  lemma {:induction false} AdvanceMovesOn(s: State, t: ThreadId, choice: Choice)
    requires Fits(s) && t in s.threads && Advanced(s, t, choice).Some? && HasSlot(s.threads[t].stage)
    ensures t in Advanced(s, t, choice).value.threads
    ensures MovesOn(s.clock, s.threads[t], Advanced(s, t, choice).value.threads[t])
  {
    var p, p' := s.threads[t], Advanced(s, t, choice).value.threads[t];
    match p.stage
    case Budgeting => assert p' == Abandon(p) || p' == p.(stage := Waiting);
    case Waiting =>
      assert p' == Abandon(p) || p' == p.(stage := if p.call.Dispatching? then Revalidating else Checking);
    case Revalidating => assert p' == p.(stage := Checking) || p' == p.(stage := Releasing, finished := None);
    case Checking =>
      assert p' == p.(stage := Calling, mark := s.clock) || p' == p.(stage := Releasing, finished := None);
    case Calling => assert p' == p.(stage := Inside, mark := s.clock);
    case Inside => assert p' == p.(stage := Finishing) || p' == p.(stage := Releasing, finished := None);
    case Finishing => assert p' == p.(stage := Releasing, finished := p'.finished);
    case Releasing => assert p' == Abandon(p);
  }

  /** Such a step keeps what is owed, and takes up nothing new. */
  lemma {:induction false} MovedOwes(clock: int, p: Thread, p': Thread, k: SlotId)
    requires HasSlot(p.stage) && MovesOn(clock, p, p')
    ensures KeepsOwing(clock, p, p', k, p.stage.Calling? && p.slot == k)
    ensures Owes(p', k) ==> Owes(p, k)
  {
    if p.rest != [] { assert forall j :: j in p.rest <==> j == p.rest[0] || j in p.rest[1..]; }
  }

  /** Of all these steps only the entry to an owner closes a slot, the one its thread works on. */
  predicate ClosesOnly(p: Thread, k: SlotId, slot: Slot, slot': Slot) {
    && slot'.retired == slot.retired && slot'.closer == slot.closer && slot'.due == slot.due
    && slot'.closes == slot.closes + if p.stage.Calling? && !p.call.Dispatching? && k == p.slot then 1 else 0
  }

  lemma {:induction false} AdvanceCloses(s: State, t: ThreadId, choice: Choice)
    requires Fits(s) && t in s.threads && Advanced(s, t, choice).Some? && HasSlot(s.threads[t].stage)
    ensures var s' := Advanced(s, t, choice).value;
            && s'.clock == s.clock && s'.controls == s.controls && |s'.slots| == |s.slots|
            && forall k: SlotId :: k < |s.slots| ==> ClosesOnly(s.threads[t], k, s.slots[k], s'.slots[k])
  {
    var s' := Advanced(s, t, choice).value;
    match s.threads[t].stage
    case Budgeting => assert s'.slots == s.slots;
    case Waiting => assert s'.clock == s.clock;
    case Revalidating => assert s'.slots == s.slots;
    case Checking => assert s'.slots == s.slots;
    case Calling => assert s'.clock == s.clock;
    case Inside => assert s'.clock == s.clock;
    case Finishing => assert s'.slots == s.slots;
    case Releasing => assert s'.clock == s.clock;
  }

  /** Every step of a thread but its first lock region. */
  lemma {:induction false} AdvanceCleans(s: State, t: ThreadId, choice: Choice)
    requires Fits(s) && CleanupInv(s) && t in s.threads && Advanced(s, t, choice).Some?
    requires HasSlot(s.threads[t].stage)
    ensures CleanupInv(Advanced(s, t, choice).value)
  {
    var s' := Advanced(s, t, choice).value;
    var p := s.threads[t];
    AdvanceMovesOn(s, t, choice);
    AdvanceCloses(s, t, choice);
    forall k: SlotId | k < |s.slots|
      ensures SameCleanup(s.slots[k], s'.slots[k])
      ensures KeepsOwing(s.clock, p, s'.threads[t], k, s'.slots[k].closes > 0)
    {
      assert ClosesOnly(p, k, s.slots[k], s'.slots[k]);
      MovedOwes(s.clock, p, s'.threads[t], k);
    }
    forall u | u in s.threads && u != t ensures u in s'.threads && s'.threads[u] == s.threads[u] {
      OnlyOneMoves(s, t, choice, u);
    }
    MoveCleans(s, s', t, s'.threads[t]);
  }

  lemma {:induction false} RetireOneCleans(s: State, t: ThreadId, id: RunId)
    requires Inv(s) && CleanupInv(s) && t in s.threads && s.threads[t].stage.Looking?
    requires s.threads[t].call == Unregistering(id) && id in s.controls
    ensures CleanupInv(LookUp(s, t))
  {
    var s' := LookUp(s, t);
    var p' := s'.threads[t];
    assert p'.slot == s.controls[id] && Owes(p', s.controls[id]);
    forall k: SlotId | k < |s'.slots| ensures CleanSlot(s'.threads, s'.clock, k, s'.slots[k]) {
      assert CleanSlot(s.threads, s.clock, k, s.slots[k]);
    }
    forall k: SlotId | k < |s'.slots| && !s'.slots[k].retired ensures k in s'.controls.Values {
      var id' :| id' in s.controls && s.controls[id'] == k;
      assert id' in s'.controls && s'.controls[id'] == k;
    }
  }

  lemma {:induction false} WorkIsOwed(p: Thread, work: seq<SlotId>, k: SlotId)
    requires k in work && p.slot == work[0] && p.rest == work[1..] && p.stage.Budgeting? && p.call.Stopping?
    ensures Owes(p, k)
  {
    assert k == work[0] || k in work[1..];
  }

  /** Shutdown leaves no slot in use. */
  lemma {:induction false} StopRetires(s: State, t: ThreadId, k: SlotId)
    requires Inv(s) && CleanupInv(s) && t in s.threads && k < |s.slots|
    ensures var slot := RetireAll(s, t).slots[k];
            slot.retired && (slot == s.slots[k] ||
              (k in LiveSlots(s.controls, |s.slots|) && slot == RetiredBy(s.slots[k], t, s.threads[t].deadline)))
  {
    LiveSlotsAre(s.controls, |s.slots|);
    RetireAllIs(s, t);
  }

  lemma {:induction false} StopCleans(s: State, t: ThreadId)
    requires Inv(s) && CleanupInv(s) && t in s.threads && s.threads[t].stage.Looking?
    requires s.threads[t].call == Stopping && !s.closed
    ensures CleanupInv(LookUp(s, t))
  {
    var s' := LookUp(s, t);
    var work := LiveSlots(s.controls, |s.slots|);
    var p' := s'.threads[t];
    assert s' == Move(RetireAll(s, t), t, p');
    forall k: SlotId | k < |s'.slots|
      ensures s'.slots[k].retired && CleanSlot(s'.threads, s'.clock, k, s'.slots[k])
    {
      assert CleanSlot(s.threads, s.clock, k, s.slots[k]);
      StopRetires(s, t, k);
      if k in work { WorkIsOwed(p', work, k); }
    }
  }

  lemma {:induction false} LookUpCleans(s: State, t: ThreadId)
    requires Inv(s) && CleanupInv(s) && t in s.threads && s.threads[t].stage.Looking?
    ensures CleanupInv(LookUp(s, t))
  {
    var p := s.threads[t];
    if p.call.Unregistering? && p.call.id in s.controls {
      RetireOneCleans(s, t, p.call.id);
    } else if p.call.Stopping? && !s.closed {
      StopCleans(s, t);
    } else {
      MoveCleans(s, LookUp(s, t), t, LookUp(s, t).threads[t]);
    }
  }

  lemma {:induction false} RegisterCleans(s: State, id: RunId)
    requires Inv(s) && CleanupInv(s)
    ensures CleanupInv(Registered(s, id))
  {
    var s' := Registered(s, id);
    if s' != s {
      forall k: SlotId | k < |s'.slots| && !s'.slots[k].retired ensures k in s'.controls.Values {
        if k < |s.slots| {
          var id' :| id' in s.controls && s.controls[id'] == k;
          assert s'.controls[id'] == k;
        } else {
          assert s'.controls[id] == k;
        }
      }
    }
  }

  lemma {:induction false} BeginCleans(s: State, t: ThreadId, p: Thread)
    requires CleanupInv(s) && (t in s.threads ==> s.threads[t].stage.Idle?)
    ensures CleanupInv(Move(s, t, p))
  {
    forall k: SlotId | k < |s.slots| ensures CleanSlot(Move(s, t, p).threads, s.clock, k, s.slots[k]) {
      assert CleanSlot(s.threads, s.clock, k, s.slots[k]);
    }
  }

  lemma {:induction false} TickCleans(s: State, elapsed: nat)
    requires CleanupInv(s)
    ensures CleanupInv(s.(clock := s.clock + elapsed))
  {
    forall k: SlotId | k < |s.slots| ensures CleanSlot(s.threads, s.clock + elapsed, k, s.slots[k]) {
      assert CleanSlot(s.threads, s.clock, k, s.slots[k]);
    }
  }

  lemma {:induction false} StepCleans(s: State, a: Action)
    requires Inv(s) && CleanupInv(s) && Step(s, a).Some?
    ensures CleanupInv(Step(s, a).value)
  {
    match a
    case Tick(elapsed) => TickCleans(s, elapsed);
    case Register(id) => RegisterCleans(s, id);
    case Begin(t, call, timeout) => BeginCleans(s, t, Step(s, a).value.threads[t]);
    case Advance(t, choice) =>
      if s.threads[t].stage.Looking? { LookUpCleans(s, t); } else { AdvanceCleans(s, t, choice); }
  }

  lemma {:induction false} RunCleans(s: State, actions: seq<Action>)
    requires Inv(s) && LogInv(s) && CleanupInv(s) && Run(s, actions).Some?
    ensures CleanupInv(Run(s, actions).value)
    decreases |actions|
  {
    if actions != [] {
      StepKeeps(s, actions[0]);
      StepCleans(s, actions[0]);
      RunCleans(Step(s, actions[0]).value, actions[1..]);
    }
  }

  /** No owner is forgotten: in every run, every owner that was ever registered is registered
      still, or its close has begun exactly once, or the call that retired it will still
      close it, or the deadline of that call has passed. */
  lemma {:induction false} NoOwnerIsForgotten(s0: State, actions: seq<Action>, k: SlotId)
    requires Initial(s0) && Run(s0, actions).Some? && k < |Run(s0, actions).value.slots|
    ensures var s := Run(s0, actions).value;
            var slot := s.slots[k];
            if !slot.retired then k in s.controls.Values && CloseStarts(s.log, k) == 0
            else CloseStarts(s.log, k) == 1 || StillOwed(s.threads, k, slot) || slot.due <= s.clock
  {
    assert SafeLog(s0.log);
    RunKeeps(s0, actions);
    RunCleans(s0, actions);
    var s := Run(s0, actions).value;
    assert SlotOk(s.threads, k, s.slots[k]) && CleanSlot(s.threads, s.clock, k, s.slots[k]);
  }

  predicate AllIdle(s: State) { forall t :: t in s.threads ==> s.threads[t].stage.Idle? }

  /** Once a closed registry is at rest, every owner that was ever registered was asked to
      close exactly once, unless the deadline of the call that retired it passed first. */
  lemma {:induction false} ClosedMeansCleanedUp(s0: State, actions: seq<Action>, k: SlotId)
    requires Initial(s0) && Run(s0, actions).Some? && k < |Run(s0, actions).value.slots|
    requires Run(s0, actions).value.closed && AllIdle(Run(s0, actions).value)
    ensures var s := Run(s0, actions).value;
            s.slots[k].retired && (CloseStarts(s.log, k) == 1 || s.slots[k].due <= s.clock)
  {
    NoOwnerIsForgotten(s0, actions, k);
    EveryRunIsSafe(s0, actions);
  }

  // ---- an owner whose cleanup ran out of time ----

  /** Retired, not closed, and no call has it to close any more. */
  ghost predicate Lost(s: State, k: SlotId) {
    && k < |s.slots| && s.slots[k].retired && s.slots[k].closes == 0
    && forall t :: t in s.threads ==> !Owes(s.threads[t], k)
  }

  lemma {:induction false} AdvanceStaysLost(s: State, t: ThreadId, choice: Choice, k: SlotId)
    requires Fits(s) && Lost(s, k) && t in s.threads && Advanced(s, t, choice).Some?
    requires HasSlot(s.threads[t].stage)
    ensures Lost(Advanced(s, t, choice).value, k)
  {
    var s' := Advanced(s, t, choice).value;
    var p := s.threads[t];
    AdvanceMovesOn(s, t, choice);
    AdvanceCloses(s, t, choice);
    MovedOwes(s.clock, p, s'.threads[t], k);
    assert ClosesOnly(p, k, s.slots[k], s'.slots[k]) && !Owes(p, k);
    forall u | u in s'.threads && u != t ensures !Owes(s'.threads[u], k) { OnlyOneMoves(s, t, choice, u); }
  }

  lemma {:induction false} LookUpStaysLost(s: State, t: ThreadId, k: SlotId)
    requires Inv(s) && Lost(s, k) && t in s.threads && s.threads[t].stage.Looking?
    ensures Lost(LookUp(s, t), k)
  {
    var s' := LookUp(s, t);
    LiveSlotsAre(s.controls, |s.slots|);
    var work := LiveSlots(s.controls, |s.slots|);
    assert forall id :: id in s.controls ==> s.controls[id] != k;
    assert k !in work;
    assert !Owes(s'.threads[t], k);
    assert s'.slots[k] == s.slots[k];
  }

  lemma {:induction false} StepStaysLost(s: State, a: Action, k: SlotId)
    requires Inv(s) && Lost(s, k) && Step(s, a).Some?
    ensures Lost(Step(s, a).value, k)
  {
    match a
    case Tick(_) =>
    case Register(_) =>
    case Begin(_, _, _) =>
    case Advance(t, choice) =>
      if s.threads[t].stage.Looking? { LookUpStaysLost(s, t, k); } else { AdvanceStaysLost(s, t, choice, k); }
  }

  /** Whatever follows, such an owner is never asked to close. */
  lemma {:induction false} LostForGood(s: State, actions: seq<Action>, k: SlotId)
    requires Inv(s) && LogInv(s) && Lost(s, k) && Run(s, actions).Some?
    ensures Lost(Run(s, actions).value, k) && CloseStarts(Run(s, actions).value.log, k) == 0
    decreases |actions|
  {
    if actions != [] {
      StepStaysLost(s, actions[0], k);
      StepKeeps(s, actions[0]);
      LostForGood(Step(s, actions[0]).value, actions[1..], k);
    }
  }

  /** At rest it is decided: an owner that was retired and not closed by then had its deadline
      pass, and whatever follows is never closed. */
  lemma {:induction false} RestDecides(s0: State, before: seq<Action>, after: seq<Action>, k: SlotId)
    requires Initial(s0) && Run(s0, before).Some? && AllIdle(Run(s0, before).value)
    requires Run(Run(s0, before).value, after).Some?
    requires k < |Run(s0, before).value.slots| && Run(s0, before).value.slots[k].retired
    ensures var s := Run(s0, before).value;
            CloseStarts(s.log, k) == 1 ||
            (s.slots[k].due <= s.clock && CloseStarts(Run(s, after).value.log, k) == 0)
  {
    assert SafeLog(s0.log);
    NoOwnerIsForgotten(s0, before, k);
    RunKeeps(s0, before);
    var s := Run(s0, before).value;
    assert SlotOk(s.threads, k, s.slots[k]);
    if s.slots[k].closes == 0 { LostForGood(s, after, k); }
  }

  /** A cleanup call that has not got past its first clock reading when its time is over. */
  function Losing(): seq<Action> {
    [Register(7), Begin(0, Unregistering(7), 5), Advance(0, Go), Tick(9), Advance(0, Go)]
  }

  function Unclosed(retired: bool, clock: int, stage: Stage): State {
    State(1, false, if retired then map[] else map[7 := 0],
          [if retired then Slot(None, true, Some(0), None, 0, 5) else Slot(None, false, None, None, 0, 0)],
          map[0 := Thread(stage, Unregistering(7), 0, [], 5, 0, None)], clock, [])
  }

  lemma {:induction false} LosingRegisters()
    ensures var s0 := State(1, false, map[], [], map[], 0, []);
            && Step(s0, Register(7)).Some?
            && Step(Step(s0, Register(7)).value, Begin(0, Unregistering(7), 5)) == Some(Unclosed(false, 0, Looking))
  {
    var s0 := State(1, false, map[], [], map[], 0, []);
    var empty: map<RunId, SlotId> := map[];
    assert empty[7 := 0] == map[7 := 0];
    assert s0.slots + [Slot(None, false, None, None, 0, 0)] == [Slot(None, false, None, None, 0, 0)];
    var none: map<ThreadId, Thread> := map[];
    var p := Thread(Looking, Unregistering(7), 0, [], 5, 0, None);
    assert none[0 := p] == map[0 := p];
  }

  lemma {:induction false} LosingRetires()
    ensures Step(Unclosed(false, 0, Looking), Advance(0, Go)) == Some(Unclosed(true, 0, Budgeting))
  {
    var s := Unclosed(false, 0, Looking);
    var p := s.threads[0];
    assert map[0 := p][0 := p.(stage := Budgeting)] == map[0 := p.(stage := Budgeting)];
    var old', new' := Slot(None, false, None, None, 0, 0), Slot(None, true, Some(0), None, 0, 5);
    assert [old'][0 := new'] == [new'];
    assert map[7 := 0 as SlotId] - {7} == map[];
  }

  lemma {:induction false} LosingGivesUp()
    ensures Step(Unclosed(true, 0, Budgeting), Tick(9)) == Some(Unclosed(true, 9, Budgeting))
    ensures Step(Unclosed(true, 9, Budgeting), Advance(0, Go)) == Some(Unclosed(true, 9, Idle))
  {
    var p := Unclosed(true, 9, Budgeting).threads[0];
    assert map[0 := p][0 := p.(stage := Idle)] == map[0 := p.(stage := Idle)];
  }

  function Behind(): seq<Action> { [Advance(0, Go)] + ([Tick(9)] + ([Advance(0, Go)] + [])) }

  lemma {:induction false} LosingAdvances()
    ensures Run(Unclosed(false, 0, Looking), Behind()) == Some(Unclosed(true, 9, Idle))
  {
    LosingRetires();
    LosingGivesUp();
    assert Run(Unclosed(true, 9, Idle), []) == Some(Unclosed(true, 9, Idle));
    RunOne(Unclosed(true, 9, Budgeting), Advance(0, Go), []);
    RunOne(Unclosed(true, 0, Budgeting), Tick(9), [Advance(0, Go)] + []);
    RunOne(Unclosed(false, 0, Looking), Advance(0, Go), [Tick(9)] + ([Advance(0, Go)] + []));
  }

  /** An owner can be lost: the registry retires it before it has time to close it. */
  lemma {:induction false} OwnerCanBeLost()
    ensures var s0 := State(1, false, map[], [], map[], 0, []);
            && Initial(s0) && Run(s0, Losing()) == Some(Unclosed(true, 9, Idle))
            && AllIdle(Unclosed(true, 9, Idle)) && Lost(Unclosed(true, 9, Idle), 0)
  {
    var s0 := State(1, false, map[], [], map[], 0, []);
    var s1 := Step(s0, Register(7)).value;
    LosingRegisters();
    LosingAdvances();
    RunOne(s1, Begin(0, Unregistering(7), 5), Behind());
    RunOne(s0, Register(7), [Begin(0, Unregistering(7), 5)] + Behind());
    assert Losing() == [Register(7)] + ([Begin(0, Unregistering(7), 5)] + Behind());
  }
}
