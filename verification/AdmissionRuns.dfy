/** Whole runs of the admission controller: every interleaving, over every key, of
    acquisitions, wake-ups, timeouts, cancellations, slot releases and capacity
    changes, with the slot tokens `generation_slot` hands out. */
module AdmissionRuns {
  import opened Admission

  type Key = string

  /** A `_GenerationSlot`: the token of one call of `generation_slot`. */
  datatype Slot = Slot(task: Task, key: Key, acquired: bool, released: bool) {
    predicate Live() { acquired && !released }
  }

  datatype System = System(states: map<Key, KeyState>, slots: seq<Slot>)

  datatype Step =
    | Begin(task: Task, key: Key)
    | Wake(task: Task, key: Key)
    | Strike(task: Task, key: Key)        // a timeout or a cancellation
    | ReleaseSlot(slot: nat)              // `release_now`, or either exit of the slot
    | Tighten(key: Key, capacity: int)

  const Start := System(map[], [])

  function StateOf(cfg: Config, sys: System, k: Key): KeyState {
    if k in sys.states then sys.states[k] else Fresh(cfg)
  }

  /** A slot token exists from the moment `acquire` has returned. */
  function Token(t: Task, k: Key, o: Outcome): seq<Slot> {
    if o.Waiting? then [] else [Slot(t, k, o.Acquired?, false)]
  }

  /** A task sleeping in one `acquire` runs no other; only a task whose future is
      settled wakes up. */
  predicate Enabled(sys: System, step: Step) {
    match step
    case Begin(t, _) => forall k :: k in sys.states ==> !IsWaiting(sys.states[k], t)
    case Wake(t, k) =>
      k in sys.states && IsWaiting(sys.states[k], t)
      && !sys.states[k].waiters[IndexOf(sys.states[k].waiters, t)].phase.Pending?
    case Strike(t, k) => k in sys.states && IsWaiting(sys.states[k], t)
    case ReleaseSlot(i) => i < |sys.slots|
    case Tighten(_, _) => true
  }

  /** One release of the token: a second one, by whichever path, does nothing. */
  function ReleaseToken(sys: System, i: nat): System
    requires i < |sys.slots|
  {
    var slot := sys.slots[i];
    if !slot.Live() || slot.key !in sys.states then sys
    else
      match Release(sys.states[slot.key], slot.task)
      case Done(s) => System(sys.states[slot.key := s], sys.slots[i := slot.(released := true)])
      case OverRelease(s) => sys.(states := sys.states[slot.key := s])
  }

  function Next(cfg: Config, sys: System, step: Step): System
    requires Enabled(sys, step)
  {
    match step
    case Begin(t, k) =>
      var (s, o) := BeginAcquire(cfg, StateOf(cfg, sys, k), t);
      System(sys.states[k := s], sys.slots + Token(t, k, o))
    case Wake(t, k) =>
      var (s, o) := Resume(sys.states[k], t);
      System(sys.states[k := s], sys.slots + Token(t, k, o))
    case Strike(t, k) => sys.(states := sys.states[k := Interrupt(sys.states[k], t)])
    case ReleaseSlot(i) => ReleaseToken(sys, i)
    case Tighten(k, c) =>
      if c < 1 then sys
      else sys.(states := sys.states[k := SetCapacity(cfg, StateOf(cfg, sys, k), c)])
  }

  predicate IsRun(cfg: Config, sys: System, steps: seq<Step>)
    decreases |steps|
  {
    steps == [] || (Enabled(sys, steps[0]) && IsRun(cfg, Next(cfg, sys, steps[0]), steps[1..]))
  }

  function After(cfg: Config, sys: System, steps: seq<Step>): System
    requires IsRun(cfg, sys, steps)
    decreases |steps|
  {
    if steps == [] then sys else After(cfg, Next(cfg, sys, steps[0]), steps[1..])
  }

  // ---------------------------------------------------------------- invariant

  /** How many acquired and unreleased tokens task `t` owns for key `k`. */
  function LiveSlots(slots: seq<Slot>, t: Task, k: Key): nat {
    if slots == [] then 0
    else (if slots[0].Live() && slots[0].task == t && slots[0].key == k then 1 else 0)
         + LiveSlots(slots[1..], t, k)
  }

  /** Per task and key, the reentrancy count is the number of live tokens. */
  ghost predicate CountsAgree(cfg: Config, sys: System) {
    forall t, k :: LiveSlots(sys.slots, t, k) == Depth(StateOf(cfg, sys, k), t)
  }

  ghost predicate Inv(cfg: Config, sys: System) {
    && cfg.Valid()
    && (forall k :: k in sys.states ==> KeyInv(cfg, sys.states[k]))
    && CountsAgree(cfg, sys)
  }

  lemma FreshInv(cfg: Config)
    requires cfg.Valid()
    ensures KeyInv(cfg, Fresh(cfg))
  {
    assert |Fresh(cfg).held| == 0;
  }

  lemma {:induction false} LiveConcat(a: seq<Slot>, b: seq<Slot>, t: Task, k: Key)
    ensures LiveSlots(a + b, t, k) == LiveSlots(a, t, k) + LiveSlots(b, t, k)
  {
    if a == [] {
      assert a + b == b;
    } else {
      assert (a + b)[1..] == a[1..] + b;
      LiveConcat(a[1..], b, t, k);
    }
  }

  lemma LiveUpdate(slots: seq<Slot>, i: nat, t: Task, k: Key)
    requires i < |slots| && slots[i].Live()
    ensures LiveSlots(slots[i := slots[i].(released := true)], t, k)
         == LiveSlots(slots, t, k) - (if slots[i].task == t && slots[i].key == k then 1 else 0)
  {
    var gone := slots[i].(released := true);
    assert slots == slots[..i] + ([slots[i]] + slots[i + 1..]);
    assert slots[i := gone] == slots[..i] + ([gone] + slots[i + 1..]);
    LiveConcat(slots[..i], [slots[i]] + slots[i + 1..], t, k);
    LiveConcat(slots[..i], [gone] + slots[i + 1..], t, k);
    LiveConcat([slots[i]], slots[i + 1..], t, k);
    LiveConcat([gone], slots[i + 1..], t, k);
  }

  lemma TokenCounts(slots: seq<Slot>, t: Task, k: Key, o: Outcome, t': Task, k': Key)
    ensures LiveSlots(slots + Token(t, k, o), t', k')
         == LiveSlots(slots, t', k') + (if o.Acquired? && t == t' && k == k' then 1 else 0)
  {
    LiveConcat(slots, Token(t, k, o), t', k');
    if !o.Waiting? { assert Token(t, k, o)[1..] == []; }
  }

  lemma BeginDepth(cfg: Config, s: KeyState, t: Task, t': Task)
    requires KeyInv(cfg, s)
    ensures var (s', o) := BeginAcquire(cfg, s, t);
            Depth(s', t') == Depth(s, t') + (if o.Acquired? && t == t' then 1 else 0)
  {
  }

  lemma ResumeDepth(s: KeyState, t: Task, t': Task)
    ensures var (s', o) := Resume(s, t);
            Depth(s', t') == Depth(s, t') + (if o.Acquired? && t == t' then 1 else 0)
  {
    var i := IndexOf(s.waiters, t);
    if i < |s.waiters| {
      WokenOnlyMoves(s, i);
    }
  }

  /** Every acquisition that returns ACQUIRED adds exactly one level, on its own key. */
  lemma AcquireDepth(cfg: Config, s: KeyState, t: Task, t': Task)
    requires KeyInv(cfg, s)
    ensures var (s', o) := BeginAcquire(cfg, s, t);
            Depth(s', t') == Depth(s, t') + (if o.Acquired? && t == t' then 1 else 0)
    ensures var (s', o) := Resume(s, t);
            Depth(s', t') == Depth(s, t') + (if o.Acquired? && t == t' then 1 else 0)
  {
    BeginDepth(cfg, s, t, t');
    ResumeDepth(s, t, t');
  }

  lemma LiveMeansHeld(cfg: Config, sys: System, i: nat)
    requires Inv(cfg, sys) && i < |sys.slots| && sys.slots[i].Live()
    ensures sys.slots[i].key in sys.states
    ensures sys.slots[i].task in sys.states[sys.slots[i].key].held
  {
    var (t, k) := (sys.slots[i].task, sys.slots[i].key);
    LiveUpdate(sys.slots, i, t, k);
    assert Depth(StateOf(cfg, sys, k), t) > 0;
  }

  /** An acquisition step: the key's state is `s'` afterwards and a token is added. */
  lemma AcquisitionKeepsInv(cfg: Config, sys: System, t: Task, k: Key, s': KeyState, o: Outcome)
    requires Inv(cfg, sys) && KeyInv(cfg, s')
    requires forall t' :: Depth(s', t') == Depth(StateOf(cfg, sys, k), t') + (if o.Acquired? && t == t' then 1 else 0)
    ensures Inv(cfg, System(sys.states[k := s'], sys.slots + Token(t, k, o)))
  {
    var sys' := System(sys.states[k := s'], sys.slots + Token(t, k, o));
    forall t', k' ensures LiveSlots(sys'.slots, t', k') == Depth(StateOf(cfg, sys', k'), t') {
      TokenCounts(sys.slots, t, k, o, t', k');
    }
  }

  /** A step that moves no reentrancy count and adds no token. */
  lemma NeutralKeepsInv(cfg: Config, sys: System, k: Key, s': KeyState)
    requires Inv(cfg, sys) && KeyInv(cfg, s') && s'.held == StateOf(cfg, sys, k).held
    ensures Inv(cfg, sys.(states := sys.states[k := s']))
  {
    var sys' := sys.(states := sys.states[k := s']);
    forall t', k' ensures LiveSlots(sys'.slots, t', k') == Depth(StateOf(cfg, sys', k'), t') {
      assert Depth(StateOf(cfg, sys', k'), t') == Depth(StateOf(cfg, sys, k'), t');
    }
  }

  lemma StepKeepsInv(cfg: Config, sys: System, step: Step)
    requires Inv(cfg, sys) && Enabled(sys, step)
    ensures Inv(cfg, Next(cfg, sys, step))
  {
    FreshInv(cfg);
    match step {
      case Begin(t, k) =>
        var s := StateOf(cfg, sys, k);
        BeginAcquireKeeps(cfg, s, t);
        forall t' ensures Depth(BeginAcquire(cfg, s, t).0, t') == Depth(s, t') + (if BeginAcquire(cfg, s, t).1.Acquired? && t == t' then 1 else 0) {
          AcquireDepth(cfg, s, t, t');
        }
        AcquisitionKeepsInv(cfg, sys, t, k, BeginAcquire(cfg, s, t).0, BeginAcquire(cfg, s, t).1);
      case Wake(t, k) =>
        var s := sys.states[k];
        ResumeKeeps(cfg, s, t);
        forall t' ensures Depth(Resume(s, t).0, t') == Depth(s, t') + (if Resume(s, t).1.Acquired? && t == t' then 1 else 0) {
          AcquireDepth(cfg, s, t, t');
        }
        AcquisitionKeepsInv(cfg, sys, t, k, Resume(s, t).0, Resume(s, t).1);
      case Strike(t, k) =>
        InterruptKeeps(cfg, sys.states[k], t);
        NeutralKeepsInv(cfg, sys, k, Interrupt(sys.states[k], t));
      case ReleaseSlot(i) => ReleaseKeepsInv(cfg, sys, i);
      case Tighten(k, c) =>
        SetCapacityKeeps(cfg, StateOf(cfg, sys, k), c);
        NeutralKeepsInv(cfg, sys, k, SetCapacity(cfg, StateOf(cfg, sys, k), c));
    }
  }

  /** Releasing a live token never over-releases the semaphore. */
  lemma ReleaseKeepsInv(cfg: Config, sys: System, i: nat)
    requires Inv(cfg, sys) && i < |sys.slots|
    ensures Inv(cfg, ReleaseToken(sys, i))
    ensures sys.slots[i].Live() ==>
              && sys.slots[i].key in sys.states
              && Release(sys.states[sys.slots[i].key], sys.slots[i].task).Done?
              && ReleaseToken(sys, i).slots == sys.slots[i := sys.slots[i].(released := true)]
  {
    var slot := sys.slots[i];
    if slot.Live() {
      LiveMeansHeld(cfg, sys, i);
      var s := sys.states[slot.key];
      ReleaseKeeps(cfg, s, slot.task);
      var sys' := ReleaseToken(sys, i);
      forall t, k ensures LiveSlots(sys'.slots, t, k) == Depth(StateOf(cfg, sys', k), t) {
        LiveUpdate(sys.slots, i, t, k);
        ReleaseDepth(cfg, s, slot.task, t);
      }
    }
  }

  lemma ReleaseDepth(cfg: Config, s: KeyState, t: Task, t': Task)
    requires KeyInv(cfg, s) && t in s.held
    ensures Depth(Release(s, t).state, t') == Depth(s, t') - (if t == t' then 1 else 0)
  {
  }

  // ----------------------------------------------------- over whole runs

  lemma {:induction false} RunKeepsInv(cfg: Config, sys: System, steps: seq<Step>)
    requires Inv(cfg, sys) && IsRun(cfg, sys, steps)
    ensures Inv(cfg, After(cfg, sys, steps))
    decreases |steps|
  {
    if steps != [] {
      StepKeepsInv(cfg, sys, steps[0]);
      RunKeepsInv(cfg, Next(cfg, sys, steps[0]), steps[1..]);
    }
  }

  /** Safety of every interleaving, from the empty controller. */
  lemma EveryRunIsSafe(cfg: Config, steps: seq<Step>)
    requires cfg.Valid() && IsRun(cfg, Start, steps)
    ensures Inv(cfg, After(cfg, Start, steps))
  {
    forall t, k ensures LiveSlots(Start.slots, t, k) == Depth(StateOf(cfg, Start, k), t) {
    }
    RunKeepsInv(cfg, Start, steps);
  }

  /** When no token of a key is live and nobody waits for it, the key is back where
      it started: all permits free and both counters zero. */
  lemma QuiescentKeyIsIdle(cfg: Config, steps: seq<Step>, k: Key)
    requires cfg.Valid() && IsRun(cfg, Start, steps)
    requires k in After(cfg, Start, steps).states
    requires After(cfg, Start, steps).states[k].waiters == []
    requires forall slot :: slot in After(cfg, Start, steps).slots && slot.key == k ==> !slot.Live()
    ensures Idle(After(cfg, Start, steps).states[k])
  {
    EveryRunIsSafe(cfg, steps);
    var sys := After(cfg, Start, steps);
    NothingHeld(cfg, sys, k);
    assert InFlight(sys.states[k].waiters) == 0;
  }

  lemma NothingHeld(cfg: Config, sys: System, k: Key)
    requires Inv(cfg, sys) && k in sys.states
    requires forall slot :: slot in sys.slots && slot.key == k ==> !slot.Live()
    ensures sys.states[k].held == map[] && sys.states[k].active == 0
  {
    forall t ensures t !in sys.states[k].held {
      NoLiveSlots(sys.slots, t, k);
      assert Depth(StateOf(cfg, sys, k), t) == 0;
    }
    assert sys.states[k].held == map[];
    assert |sys.states[k].held| == 0;
  }

  lemma {:induction false} NoLiveSlots(slots: seq<Slot>, t: Task, k: Key)
    requires forall slot :: slot in slots && slot.key == k ==> !slot.Live()
    ensures LiveSlots(slots, t, k) == 0
  {
    if slots != [] { NoLiveSlots(slots[1..], t, k); }
  }

  /** `release_now` and both exits together release a token once. */
  lemma SecondReleaseIsNothing(cfg: Config, sys: System, i: nat)
    requires Inv(cfg, sys) && i < |sys.slots|
    ensures |ReleaseToken(sys, i).slots| == |sys.slots|
    ensures ReleaseToken(ReleaseToken(sys, i), i) == ReleaseToken(sys, i)
  {
    ReleaseKeepsInv(cfg, sys, i);
  }

  /** Only the outermost release of a task hands a permit back. */
  lemma OnlyOutermostFrees(cfg: Config, sys: System, i: nat)
    requires Inv(cfg, sys) && i < |sys.slots| && sys.slots[i].Live()
    ensures var (t, k) := (sys.slots[i].task, sys.slots[i].key);
            var sys' := ReleaseToken(sys, i);
            && k in sys.states && k in sys'.states
            && sys'.states[k].value + InFlight(sys'.states[k].waiters)
               == sys.states[k].value + InFlight(sys.states[k].waiters)
                  + (if LiveSlots(sys.slots, t, k) == 1 then 1 else 0)
            && sys'.states[k].active
               == sys.states[k].active - (if LiveSlots(sys.slots, t, k) == 1 then 1 else 0)
  {
    var (t, k) := (sys.slots[i].task, sys.slots[i].key);
    LiveMeansHeld(cfg, sys, i);
    ReleaseKeepsInv(cfg, sys, i);
    assert LiveSlots(sys.slots, t, k) == Depth(StateOf(cfg, sys, k), t);
    var (s, s') := (sys.states[k], ReleaseToken(sys, i).states[k]);
    assert |s.held| == |s.held.Keys| && |s'.held| == |s'.held.Keys|;
    if s.held[t] > 1 {
      assert s'.held.Keys == s.held.Keys;
    } else {
      assert s.held.Keys == s'.held.Keys + {t};
    }
  }

  // ------------------------------------------------------ who gets a slot

  /** Nobody waiting for the key may still get in, and a permit is neither held nor on its
      way to somebody. */
  ghost predicate Uncontended(s: KeyState) {
    |s.held| + InFlight(s.waiters) < s.capacity && NobodyAhead(s)
  }

  /** Over every run: beginning an acquisition adds a live slot for the task exactly when the
      task holds the key already or the key is uncontended; it adds a slot that was not
      acquired exactly when it does not and the queue is full; and otherwise it adds none
      and the task waits at the end of the queue. */
  lemma SlotIsGrantedIff(cfg: Config, history: seq<Step>, t: Task, k: Key)
    requires cfg.Valid() && IsRun(cfg, Start, history) && Enabled(After(cfg, Start, history), Begin(t, k))
    ensures var sys := After(cfg, Start, history);
            var (s, slots, slots') := (StateOf(cfg, sys, k), sys.slots, Next(cfg, sys, Begin(t, k)).slots);
            var granted := LiveSlots(slots, t, k) > 0 || Uncontended(s);
            && (slots' == slots + [Slot(t, k, true, false)] <==> granted)
            && (slots' == slots + [Slot(t, k, false, false)] <==> !granted && |s.waiters| >= cfg.maxQueued)
            && (slots' == slots <==> !granted && |s.waiters| < cfg.maxQueued)
            && (slots' == slots ==>
                  Next(cfg, sys, Begin(t, k)).states[k].waiters == s.waiters + [Waiter(t, Pending)])
  {
    EveryRunIsSafe(cfg, history);
    var sys := After(cfg, Start, history);
    FreshInv(cfg);
    AcquiredIff(cfg, StateOf(cfg, sys, k), t);
    assert LiveSlots(sys.slots, t, k) == Depth(StateOf(cfg, sys, k), t);
    var o := BeginAcquire(cfg, StateOf(cfg, sys, k), t).1;
    assert !o.Waiting? ==> (sys.slots + Token(t, k, o))[|sys.slots|] == Slot(t, k, o.Acquired?, false);
  }

  /** A key nobody has used gives the first task that asks its first permit. */
  lemma FirstComeFirstServed(cfg: Config, t: Task, k: Key)
    requires cfg.Valid()
    ensures Next(cfg, Start, Begin(t, k)).slots == [Slot(t, k, true, false)]
  {
    SlotIsGrantedIff(cfg, [], t, k);
    assert |Fresh(cfg).held| == 0;
  }

  /** Over every run: a waiting task that is struck wakes up to a slot that was not acquired,
      and the permits held for the key stay held. */
  lemma StruckGetsNothing(cfg: Config, history: seq<Step>, t: Task, k: Key)
    requires cfg.Valid() && IsRun(cfg, Start, history) && Enabled(After(cfg, Start, history), Strike(t, k))
    ensures var sys := After(cfg, Start, history);
            var struck := Next(cfg, sys, Strike(t, k));
            && Enabled(struck, Wake(t, k))
            && var awake := Next(cfg, struck, Wake(t, k));
               && awake.slots == sys.slots + [Slot(t, k, false, false)]
               && !IsWaiting(awake.states[k], t) && awake.states[k].held == sys.states[k].held
  {
    EveryRunIsSafe(cfg, history);
    StruckIsNotServed(cfg, After(cfg, Start, history).states[k], t);
  }

  // ----------------------------------------------------------- capacity

  ghost predicate NeverTightened(steps: seq<Step>, k: Key) {
    forall step :: step in steps && step.Tighten? ==> step.key != k
  }

  lemma ResumeFrame(s: KeyState, t: Task)
    ensures Resume(s, t).0.capacity == s.capacity
  {
    var i := IndexOf(s.waiters, t);
    if i < |s.waiters| {
      WokenOnlyMoves(s, i);
    }
  }

  lemma BeginFrame(cfg: Config, s: KeyState, t: Task)
    ensures BeginAcquire(cfg, s, t).0.capacity == s.capacity
  {
  }

  lemma InterruptFrame(s: KeyState, t: Task)
    ensures Interrupt(s, t).capacity == s.capacity
  {
  }

  lemma ReleaseFrame(s: KeyState, t: Task)
    ensures Release(s, t).state.capacity == s.capacity
  {
  }

  /** The state of one key after another key's, or its own, has been replaced. */
  lemma Replaced(cfg: Config, sys: System, k': Key, s: KeyState, slots: seq<Slot>, k: Key)
    ensures StateOf(cfg, System(sys.states[k' := s], slots), k) == if k == k' then s else StateOf(cfg, sys, k)
  {
  }

  lemma CapacityStep(cfg: Config, sys: System, step: Step, k: Key)
    requires Inv(cfg, sys) && Enabled(sys, step)
    ensures StateOf(cfg, Next(cfg, sys, step), k).capacity <= StateOf(cfg, sys, k).capacity
    ensures !(step.Tighten? && step.key == k) ==>
              StateOf(cfg, Next(cfg, sys, step), k).capacity == StateOf(cfg, sys, k).capacity
  {
    FreshInv(cfg);
    var after := Next(cfg, sys, step);
    match step {
      case Begin(t, k') =>
        BeginFrame(cfg, StateOf(cfg, sys, k'), t);
        Replaced(cfg, sys, k', BeginAcquire(cfg, StateOf(cfg, sys, k'), t).0, after.slots, k);
      case Wake(t, k') =>
        ResumeFrame(sys.states[k'], t);
        Replaced(cfg, sys, k', Resume(sys.states[k'], t).0, after.slots, k);
      case Strike(t, k') =>
        InterruptFrame(sys.states[k'], t);
        Replaced(cfg, sys, k', Interrupt(sys.states[k'], t), after.slots, k);
      case ReleaseSlot(i) =>
        var slot := sys.slots[i];
        if slot.Live() && slot.key in sys.states {
          ReleaseFrame(sys.states[slot.key], slot.task);
          Replaced(cfg, sys, slot.key, Release(sys.states[slot.key], slot.task).state, after.slots, k);
        }
      case Tighten(k', c) =>
        SetCapacityKeeps(cfg, StateOf(cfg, sys, k'), c);
        Replaced(cfg, sys, k', SetCapacity(cfg, StateOf(cfg, sys, k'), c), after.slots, k);
    }
  }

  /** Over any run a key's capacity only goes down, and it moves only in the very
      step that asks for it. */
  lemma {:induction false} CapacityOverRuns(cfg: Config, sys: System, steps: seq<Step>, k: Key)
    requires Inv(cfg, sys) && IsRun(cfg, sys, steps)
    ensures 1 <= StateOf(cfg, After(cfg, sys, steps), k).capacity <= StateOf(cfg, sys, k).capacity
    ensures NeverTightened(steps, k) ==>
              StateOf(cfg, After(cfg, sys, steps), k).capacity == StateOf(cfg, sys, k).capacity
    decreases |steps|
  {
    if steps != [] {
      CapacityStep(cfg, sys, steps[0], k);
      StepKeepsInv(cfg, sys, steps[0]);
      CapacityOverRuns(cfg, Next(cfg, sys, steps[0]), steps[1..], k);
    }
  }

  /** A tightening is never remembered.  Ask for a lower cap, then let anything at
      all happen, a complete drain included, without asking again: the lower cap is
      in force exactly when the key was idle at the moment of asking. */
  lemma TighteningIsNeverDeferred(cfg: Config, sys: System, k: Key, c: int, steps: seq<Step>)
    requires Inv(cfg, sys) && 1 <= c < StateOf(cfg, sys, k).capacity
    requires IsRun(cfg, Next(cfg, sys, Tighten(k, c)), steps) && NeverTightened(steps, k)
    ensures StateOf(cfg, After(cfg, Next(cfg, sys, Tighten(k, c)), steps), k).capacity == c
        <==> Idle(StateOf(cfg, sys, k))
  {
    FreshInv(cfg);
    TighteningTakesEffectIffIdle(cfg, StateOf(cfg, sys, k), c);
    StepKeepsInv(cfg, sys, Tighten(k, c));
    CapacityOverRuns(cfg, Next(cfg, sys, Tighten(k, c)), steps, k);
  }

  // ------------------------------------------------------------- progress

  function LiveOnKey(slots: seq<Slot>, k: Key): nat {
    if slots == [] then 0
    else (if slots[0].Live() && slots[0].key == k then 1 else 0) + LiveOnKey(slots[1..], k)
  }

  lemma {:induction false} LiveOnKeyConcat(a: seq<Slot>, b: seq<Slot>, k: Key)
    ensures LiveOnKey(a + b, k) == LiveOnKey(a, k) + LiveOnKey(b, k)
  {
    if a == [] {
      assert a + b == b;
    } else {
      assert (a + b)[1..] == a[1..] + b;
      LiveOnKeyConcat(a[1..], b, k);
    }
  }

  lemma LiveOnKeyRelease(slots: seq<Slot>, i: nat, k: Key)
    requires i < |slots| && slots[i].Live() && slots[i].key == k
    ensures LiveOnKey(slots[i := slots[i].(released := true)], k) == LiveOnKey(slots, k) - 1
  {
    var gone := slots[i].(released := true);
    assert slots == slots[..i] + ([slots[i]] + slots[i + 1..]);
    assert slots[i := gone] == slots[..i] + ([gone] + slots[i + 1..]);
    LiveOnKeyConcat(slots[..i], [slots[i]] + slots[i + 1..], k);
    LiveOnKeyConcat(slots[..i], [gone] + slots[i + 1..], k);
    LiveOnKeyConcat([slots[i]], slots[i + 1..], k);
    LiveOnKeyConcat([gone], slots[i + 1..], k);
  }

  /** What is left to do before a key is idle: a waiter still has to wake up and
      then to release. */
  function Work(sys: System, k: Key): nat {
    LiveOnKey(sys.slots, k) + (if k in sys.states then 2 * |sys.states[k].waiters| else 0)
  }

  /** Task `t` waits for `k` and no timeout or cancellation has struck. */
  ghost predicate Hopeful(sys: System, t: Task, k: Key) {
    k in sys.states && exists w :: w in sys.states[k].waiters && w.task == t && (w.phase.Pending? || w.phase.Granted?)
  }

  /** `t` got a slot for `k` after the first `from` tokens had been handed out. */
  ghost predicate ServedSince(slots: seq<Slot>, from: nat, t: Task, k: Key) {
    exists j :: from <= j < |slots| && slots[j].task == t && slots[j].key == k && slots[j].acquired
  }

  lemma {:induction false} WakeAllPhases(s: KeyState)
    requires s.value >= 0 && FirstInFirstOut(s.waiters)
    ensures |WakeAll(s).waiters| == |s.waiters|
    ensures forall j :: 0 <= j < |s.waiters| ==>
              || WakeAll(s).waiters[j] == s.waiters[j]
              || (s.waiters[j].phase.Pending? && WakeAll(s).waiters[j] == s.waiters[j].(phase := Granted))
    decreases s.value
  {
    if s.value > 0 && SomePending(s.waiters) {
      WakeOneKeeps(s);
      WakeAllPhases(WakeOne(s));
    }
  }

  /** Where the j-th waiter stands after the i-th has left. */
  function Moved(i: nat, j: nat): int { if j < i then j else j - 1 }

  lemma WokenAt(cfg: Config, s: KeyState, i: nat, j: nat)
    requires KeyInv(cfg, s) && i < |s.waiters| && j < |s.waiters| && j != i
    ensures |Woken(s, i).waiters| == |s.waiters| - 1
    ensures var w := Woken(s, i).waiters[Moved(i, j)];
            w == s.waiters[j] || (s.waiters[j].phase.Pending? && w == s.waiters[j].(phase := Granted))
  {
    RemovalKeepsShape(s, i);
    WakeAllPhases(Left(s, i));
    assert Left(s, i).waiters[Moved(i, j)] == s.waiters[j];
  }

  lemma BystanderInWoken(cfg: Config, s: KeyState, i: nat, j: nat)
    requires KeyInv(cfg, s) && i < |s.waiters| && j < |s.waiters| && j != i
    requires s.waiters[j].phase.Pending? || s.waiters[j].phase.Granted?
    ensures exists w :: w in Woken(s, i).waiters && w.task == s.waiters[j].task && (w.phase.Pending? || w.phase.Granted?)
  {
    WokenAt(cfg, s, i, j);
    assert Woken(s, i).waiters[Moved(i, j)] in Woken(s, i).waiters;
  }

  /** A waiter that stays in the queue while another one wakes up keeps its hope. */
  lemma BystanderStays(cfg: Config, s: KeyState, t: Task, j: nat)
    requires KeyInv(cfg, s) && j < |s.waiters| && IsWaiting(s, t) && j != IndexOf(s.waiters, t)
    requires !s.waiters[IndexOf(s.waiters, t)].phase.Pending?
    requires s.waiters[j].phase.Pending? || s.waiters[j].phase.Granted?
    ensures exists w :: w in Resume(s, t).0.waiters && w.task == s.waiters[j].task && (w.phase.Pending? || w.phase.Granted?)
  {
    BystanderInWoken(cfg, s, IndexOf(s.waiters, t), j);
  }

  /** Waking `t` up serves it, and leaves every other hopeful waiter hopeful. */
  lemma WakeServes(cfg: Config, sys: System, t: Task, k: Key, t': Task)
    requires Inv(cfg, sys) && Enabled(sys, Wake(t, k)) && Hopeful(sys, t', k)
    ensures var sys' := Next(cfg, sys, Wake(t, k));
            Hopeful(sys', t', k) || ServedSince(sys'.slots, |sys.slots|, t', k)
  {
    var s := sys.states[k];
    var w :| w in s.waiters && w.task == t' && (w.phase.Pending? || w.phase.Granted?);
    var j :| 0 <= j < |s.waiters| && s.waiters[j] == w;
    if j == IndexOf(s.waiters, t) {
      var slots' := Next(cfg, sys, Wake(t, k)).slots;
      assert slots'[|sys.slots|] == Slot(t, k, true, false);
    } else {
      BystanderStays(cfg, s, t, j);
    }
  }

  lemma ReleaseServes(cfg: Config, sys: System, i: nat, k: Key, t': Task)
    requires Inv(cfg, sys) && i < |sys.slots| && sys.slots[i].Live() && sys.slots[i].key == k
    requires Hopeful(sys, t', k)
    ensures Hopeful(ReleaseToken(sys, i), t', k)
  {
    LiveMeansHeld(cfg, sys, i);
    ReleaseKeepsInv(cfg, sys, i);
    var s := sys.states[k];
    var s' := ReleaseToken(sys, i).states[k];
    var w :| w in s.waiters && w.task == t' && (w.phase.Pending? || w.phase.Granted?);
    var j :| 0 <= j < |s.waiters| && s.waiters[j] == w;
    assert s'.waiters[j] in s'.waiters;
  }

  /** Tokens never change hands: what was served stays served. */
  lemma ServedStays(cfg: Config, sys: System, step: Step, from: nat, t: Task, k: Key)
    requires Enabled(sys, step) && ServedSince(sys.slots, from, t, k)
    ensures ServedSince(Next(cfg, sys, step).slots, from, t, k)
  {
    var j :| from <= j < |sys.slots| && sys.slots[j].task == t && sys.slots[j].key == k && sys.slots[j].acquired;
    var slots' := Next(cfg, sys, step).slots;
    assert slots'[j].task == t && slots'[j].key == k && slots'[j].acquired;
  }

  /** A key where nobody can wake and no token is live has nobody waiting. */
  lemma StuckIsEmpty(cfg: Config, sys: System, k: Key)
    requires Inv(cfg, sys) && k in sys.states
    requires forall i :: 0 <= i < |sys.states[k].waiters| ==> sys.states[k].waiters[i].phase.Pending?
    requires forall slot :: slot in sys.slots && slot.key == k ==> !slot.Live()
    ensures sys.states[k].waiters == [] && Idle(sys.states[k])
  {
    var s := sys.states[k];
    NothingHeld(cfg, sys, k);
    assert |s.held| == 0;
    AllPending(s.waiters);
    assert !SomePending(s.waiters);
  }

  lemma {:induction false} AllPending(ws: seq<Waiter>)
    requires forall i :: 0 <= i < |ws| ==> ws[i].phase.Pending?
    ensures InFlight(ws) == 0
  {
    if ws != [] { AllPending(ws[1..]); }
  }

  /** Only wake-ups and releases of key `k`: nothing new arrives, nothing is struck. */
  ghost predicate Draining(steps: seq<Step>) {
    forall step :: step in steps ==> step.Wake? || step.ReleaseSlot?
  }

  lemma {:induction false} Drain(cfg: Config, sys: System, k: Key, from: nat) returns (steps: seq<Step>)
    requires Inv(cfg, sys) && k in sys.states && from <= |sys.slots|
    ensures Draining(steps) && IsRun(cfg, sys, steps)
    ensures k in After(cfg, sys, steps).states && Idle(After(cfg, sys, steps).states[k])
    ensures forall t :: Hopeful(sys, t, k) || ServedSince(sys.slots, from, t, k)
                    ==> ServedSince(After(cfg, sys, steps).slots, from, t, k)
    decreases Work(sys, k)
  {
    var s := sys.states[k];
    var step;
    if i :| 0 <= i < |s.waiters| && !s.waiters[i].phase.Pending? {
      step := Wake(s.waiters[i].task, k);
      assert IndexOf(s.waiters, s.waiters[i].task) == i;
    } else if i :| 0 <= i < |sys.slots| && sys.slots[i].Live() && sys.slots[i].key == k {
      step := ReleaseSlot(i);
    } else {
      StuckIsEmpty(cfg, sys, k);
      return [];
    }
    var sys' := Next(cfg, sys, step);
    StepKeepsInv(cfg, sys, step);
    WorkDecreases(cfg, sys, k, step);
    var rest := Drain(cfg, sys', k, from);
    steps := [step] + rest;
    assert steps[1..] == rest;
    forall t | Hopeful(sys, t, k) || ServedSince(sys.slots, from, t, k)
      ensures ServedSince(After(cfg, sys, steps).slots, from, t, k)
    {
      if ServedSince(sys.slots, from, t, k) {
        ServedStays(cfg, sys, step, from, t, k);
      } else if step.Wake? {
        WakeServes(cfg, sys, step.task, k, t);
      } else {
        ReleaseServes(cfg, sys, step.slot, k, t);
      }
    }
  }

  /** Progress: from every reachable state the tasks of a key can wake up and finish,
      with nothing else happening, so that the key ends idle and every task that was
      waiting for it, and was not struck, has been given a new slot on the way.
      Nobody is forgotten. */
  lemma EveryWaiterCanBeServed(cfg: Config, history: seq<Step>, k: Key) returns (steps: seq<Step>)
    requires cfg.Valid() && IsRun(cfg, Start, history) && k in After(cfg, Start, history).states
    ensures var sys := After(cfg, Start, history);
            && Draining(steps) && IsRun(cfg, sys, steps)
            && k in After(cfg, sys, steps).states && Idle(After(cfg, sys, steps).states[k])
            && forall t :: Hopeful(sys, t, k) ==> ServedSince(After(cfg, sys, steps).slots, |sys.slots|, t, k)
  {
    EveryRunIsSafe(cfg, history);
    var sys := After(cfg, Start, history);
    steps := Drain(cfg, sys, k, |sys.slots|);
  }

  lemma WorkDecreases(cfg: Config, sys: System, k: Key, step: Step)
    requires Inv(cfg, sys) && k in sys.states && Enabled(sys, step)
    requires (step.Wake? && step.key == k)
          || (step.ReleaseSlot? && sys.slots[step.slot].Live() && sys.slots[step.slot].key == k)
    ensures k in Next(cfg, sys, step).states
    ensures Work(Next(cfg, sys, step), k) < Work(sys, k)
  {
    var s := sys.states[k];
    if step.Wake? {
      var i := IndexOf(s.waiters, step.task);
      WokenKeeps(cfg, s, i);
      var o := Resume(s, step.task).1;
      LiveOnKeyConcat(sys.slots, Token(step.task, k, o), k);
      assert Token(step.task, k, o)[1..] == [];
      assert LiveOnKey(Token(step.task, k, o), k) <= 1;
    } else {
      LiveMeansHeld(cfg, sys, step.slot);
      ReleaseKeepsInv(cfg, sys, step.slot);
      LiveOnKeyRelease(sys.slots, step.slot, k);
      assert |Release(s, sys.slots[step.slot].task).state.waiters| == |s.waiters|;
    }
  }
}
