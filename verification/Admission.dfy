/** The admission state of one backend-and-model key, as the transitions between
    the suspension points of `InferenceAdmissionController`.

    The controller's lock is never held across a suspension, so every stretch of
    code between two suspensions is one atomic step.  An acquisition that has to
    wait is cut in two at its only suspension: `BeginAcquire` runs up to the wait,
    `Resume` runs from the wake-up to the return.  The semaphore is the one of
    Python 3.12's asyncio: a queue of futures, granted first-in first-out. */
module Admission {
  import opened Numbers

  type Task = nat

  /** What has happened to the future a waiting task sleeps on, up to the moment
      the task runs again. */
  datatype Phase =
    | Pending                 // nothing yet
    | Granted                 // a permit was handed over
    | GrantedThenInterrupted  // a permit was handed over, then a timeout or cancellation struck
    | Interrupted             // a timeout or cancellation struck first

  datatype Waiter = Waiter(task: Task, phase: Phase) {
    predicate HoldsPermit() { phase.Granted? || phase.GrantedThenInterrupted? }
  }

  datatype Config = Config(maxConcurrent: nat, maxQueued: nat) {
    predicate Valid() { maxConcurrent >= 1 }
  }

  /** `value` and `waiters` are the semaphore, `capacity` its bound; `held` is this
      key's row of the per-task reentrancy counts. */
  datatype KeyState = KeyState(
    capacity: int,
    value: int,
    waiters: seq<Waiter>,
    queued: int,
    active: int,
    held: map<Task, nat>)

  datatype Outcome = Acquired | Waiting | QueueFull | NotAcquired

  function Fresh(cfg: Config): KeyState {
    KeyState(cfg.maxConcurrent, cfg.maxConcurrent, [], 0, 0, map[])
  }

  // ---------------------------------------------------------------- semaphore

  /** The position of the first future nobody has settled, or the length. */
  function FirstPending(ws: seq<Waiter>): (i: nat)
    ensures i <= |ws|
    ensures i < |ws| ==> ws[i].phase.Pending?
    ensures forall j :: 0 <= j < i ==> !ws[j].phase.Pending?
  {
    if ws == [] then 0
    else if ws[0].phase.Pending? then 0
    else 1 + FirstPending(ws[1..])
  }

  /** `Semaphore.locked`: no permit, or somebody who was not cancelled is ahead. */
  predicate Locked(s: KeyState) {
    s.value == 0 || exists i :: 0 <= i < |s.waiters| && !s.waiters[i].phase.Interrupted?
  }

  /** Hand one permit to the first pending waiter, if there is one. */
  function WakeOne(s: KeyState): KeyState {
    var i := FirstPending(s.waiters);
    if i == |s.waiters| then s
    else s.(value := s.value - 1, waiters := s.waiters[i := s.waiters[i].(phase := Granted)])
  }

  /** Hand out permits until there is no permit or nobody pending. */
  function WakeAll(s: KeyState): KeyState
    decreases s.value
  {
    if s.value <= 0 || FirstPending(s.waiters) == |s.waiters| then s
    else WakeAll(WakeOne(s))
  }

  function IndexOf(ws: seq<Waiter>, t: Task): (i: nat)
    ensures i <= |ws|
    ensures i < |ws| ==> ws[i].task == t
    ensures i == |ws| ==> forall j :: 0 <= j < |ws| ==> ws[j].task != t
  {
    if ws == [] then 0
    else if ws[0].task == t then 0
    else 1 + IndexOf(ws[1..], t)
  }

  predicate IsWaiting(s: KeyState, t: Task) { IndexOf(s.waiters, t) < |s.waiters| }

  function Depth(s: KeyState, t: Task): nat { if t in s.held then s.held[t] else 0 }

  function Without(ws: seq<Waiter>, i: nat): seq<Waiter>
    requires i < |ws|
  {
    ws[..i] + ws[i + 1..]
  }

  // -------------------------------------------------------------- transitions

  /** `acquire` up to its return or its wait. */
  function BeginAcquire(cfg: Config, s: KeyState, t: Task): (KeyState, Outcome) {
    if Depth(s, t) > 0 then
      (s.(held := s.held[t := s.held[t] + 1]), Acquired)
    else if !Locked(s) then
      (s.(value := s.value - 1, active := s.active + 1, held := s.held[t := 1]), Acquired)
    else if s.queued >= cfg.maxQueued then
      (s, QueueFull)
    else
      (s.(queued := s.queued + 1, waiters := s.waiters + [Waiter(t, Pending)]), Waiting)
  }

  /** A timeout or a cancellation reaches a waiting task that has not run yet. */
  function Interrupt(s: KeyState, t: Task): KeyState {
    var i := IndexOf(s.waiters, t);
    if i == |s.waiters| then s
    else
      var w := s.waiters[i];
      match w.phase
      case Pending => s.(waiters := s.waiters[i := w.(phase := Interrupted)])
      case Granted => s.(waiters := s.waiters[i := w.(phase := GrantedThenInterrupted)])
      case _ => s
  }

  /** The i-th waiter has left the queue and given back a permit that came too late. */
  function Left(s: KeyState, i: nat): KeyState
    requires i < |s.waiters|
  {
    var left := s.(waiters := Without(s.waiters, i));
    if s.waiters[i].phase.GrantedThenInterrupted? then left.(value := s.value + 1) else left
  }

  /** Then what is free goes to the waiters behind it. */
  function Woken(s: KeyState, i: nat): KeyState
    requires i < |s.waiters|
  {
    WakeAll(Left(s, i))
  }

  /** `acquire` from the end of its wait to its return. */
  function Resume(s: KeyState, t: Task): (KeyState, Outcome) {
    var i := IndexOf(s.waiters, t);
    if i == |s.waiters| then (s, NotAcquired)
    else if s.waiters[i].phase.Pending? then (s, Waiting)
    else if s.waiters[i].phase.Granted? then
      (Woken(s, i).(queued := Max(0, s.queued - 1), active := s.active + 1, held := s.held[t := Depth(s, t) + 1]),
       Acquired)
    else (Woken(s, i).(queued := Max(0, s.queued - 1)), NotAcquired)
  }

  datatype Released = Done(state: KeyState) | OverRelease(state: KeyState)

  /** `release_by_key`, `OverRelease` being the bounded semaphore's ValueError. */
  function Release(s: KeyState, t: Task): Released {
    var depth := Depth(s, t);
    if depth > 1 then Done(s.(held := s.held[t := depth - 1]))
    else
      var popped := s.(held := s.held - {t});
      if s.value >= s.capacity then OverRelease(popped)
      else Done(WakeOne(popped.(value := s.value + 1)).(active := Max(0, s.active - 1)))
  }

  predicate Idle(s: KeyState) { s.active == 0 && s.queued == 0 && s.value == s.capacity }

  /** `set_route_capacity`. */
  function SetCapacity(cfg: Config, s: KeyState, c: int): KeyState {
    var target := Min(c, cfg.maxConcurrent);
    if c < 1 || target >= s.capacity || !Idle(s) then s
    else s.(capacity := target, value := target, waiters := [])
  }

  // ---------------------------------------------------------------- invariant

  /** How many waiters own a permit they have not yet woken up to use. */
  function InFlight(ws: seq<Waiter>): nat {
    if ws == [] then 0
    else (if ws[0].HoldsPermit() then 1 else 0) + InFlight(ws[1..])
  }

  predicate SomePending(ws: seq<Waiter>) { FirstPending(ws) < |ws| }

  ghost predicate DistinctTasks(ws: seq<Waiter>) {
    forall i, j :: 0 <= i < j < |ws| ==> ws[i].task != ws[j].task
  }

  /** Nobody holds a permit behind somebody still pending. */
  ghost predicate FirstInFirstOut(ws: seq<Waiter>) {
    forall i, j :: 0 <= i < j < |ws| && ws[i].phase.Pending? ==> !ws[j].HoldsPermit()
  }

  ghost predicate QueueShape(s: KeyState) {
    && DistinctTasks(s.waiters)
    && FirstInFirstOut(s.waiters)
    && (forall i :: 0 <= i < |s.waiters| ==> s.waiters[i].task !in s.held)
  }

  /** Every permit is free, on its way to a waiter, or held by exactly one task;
      and a free permit with somebody pending is always about to be passed on. */
  ghost predicate KeyInv(cfg: Config, s: KeyState) {
    && 1 <= s.capacity <= cfg.maxConcurrent
    && 0 <= s.value
    && s.value + InFlight(s.waiters) + |s.held| == s.capacity
    && s.active == |s.held|
    && s.queued == |s.waiters| <= cfg.maxQueued
    && (forall t :: t in s.held ==> s.held[t] >= 1)
    && QueueShape(s)
    && (s.value > 0 && SomePending(s.waiters) ==> InFlight(s.waiters) > 0)
  }

  // ------------------------------------------------------- counting the queue

  lemma {:induction false} InFlightConcat(a: seq<Waiter>, b: seq<Waiter>)
    ensures InFlight(a + b) == InFlight(a) + InFlight(b)
  {
    if a == [] {
      assert a + b == b;
    } else {
      assert (a + b)[1..] == a[1..] + b;
      InFlightConcat(a[1..], b);
    }
  }

  lemma InFlightAround(a: seq<Waiter>, w: Waiter, b: seq<Waiter>)
    ensures InFlight(a + ([w] + b)) == InFlight(a + b) + (if w.HoldsPermit() then 1 else 0)
  {
    InFlightConcat(a, [w] + b);
    InFlightConcat(a, b);
    assert ([w] + b)[1..] == b;
  }

  lemma Rejoined(ws: seq<Waiter>, i: nat)
    requires i < |ws|
    ensures ws == ws[..i] + ([ws[i]] + ws[i + 1..])
  {
  }

  lemma InFlightSplit(ws: seq<Waiter>, i: nat)
    requires i < |ws|
    ensures InFlight(ws) == InFlight(Without(ws, i)) + (if ws[i].HoldsPermit() then 1 else 0)
  {
    Rejoined(ws, i);
    InFlightAround(ws[..i], ws[i], ws[i + 1..]);
  }

  lemma InFlightUpdate(ws: seq<Waiter>, i: nat, w: Waiter)
    requires i < |ws|
    ensures InFlight(ws[i := w])
         == InFlight(ws) - (if ws[i].HoldsPermit() then 1 else 0) + (if w.HoldsPermit() then 1 else 0)
  {
    InFlightSplit(ws, i);
    InFlightSplit(ws[i := w], i);
    assert Without(ws[i := w], i) == Without(ws, i);
  }

  lemma {:induction false} InFlightWitness(ws: seq<Waiter>, i: nat)
    requires i < |ws| && ws[i].HoldsPermit()
    ensures InFlight(ws) > 0
  {
    InFlightSplit(ws, i);
  }

  // ------------------------------------------------------------- waking up

  /** `s` with some permits handed on: nothing else about it has moved. */
  ghost predicate Redistributed(s: KeyState, s': KeyState) {
    && s' == s.(value := s'.value, waiters := s'.waiters)
    && |s'.waiters| == |s.waiters|
    && (forall i :: 0 <= i < |s.waiters| ==> s'.waiters[i].task == s.waiters[i].task)
    && s'.value + InFlight(s'.waiters) == s.value + InFlight(s.waiters)
  }

  /** Handing permits on moves the value and the waiters and nothing else. */
  lemma {:induction false} WakeAllOnlyMoves(s: KeyState)
    ensures WakeAll(s) == s.(value := WakeAll(s).value, waiters := WakeAll(s).waiters)
    decreases s.value
  {
    if s.value > 0 && SomePending(s.waiters) {
      WakeAllOnlyMoves(WakeOne(s));
    }
  }

  lemma WokenOnlyMoves(s: KeyState, i: nat)
    requires i < |s.waiters|
    ensures Woken(s, i) == s.(value := Woken(s, i).value, waiters := Woken(s, i).waiters)
  {
    WakeAllOnlyMoves(Left(s, i));
  }

  lemma WakeOneKeeps(s: KeyState)
    requires s.value > 0 && FirstInFirstOut(s.waiters)
    ensures Redistributed(s, WakeOne(s))
    ensures WakeOne(s).value >= 0 && FirstInFirstOut(WakeOne(s).waiters)
    ensures SomePending(s.waiters) ==> WakeOne(s).value == s.value - 1 && InFlight(WakeOne(s).waiters) > 0
  {
    var i := FirstPending(s.waiters);
    if i < |s.waiters| {
      InFlightUpdate(s.waiters, i, s.waiters[i].(phase := Granted));
    }
  }

  lemma {:induction false} WakeAllKeeps(s: KeyState)
    requires s.value >= 0 && FirstInFirstOut(s.waiters)
    ensures Redistributed(s, WakeAll(s))
    ensures WakeAll(s).value >= 0 && FirstInFirstOut(WakeAll(s).waiters)
    ensures WakeAll(s).value == 0 || !SomePending(WakeAll(s).waiters)
    decreases s.value
  {
    if s.value > 0 && SomePending(s.waiters) {
      WakeOneKeeps(s);
      WakeAllKeeps(WakeOne(s));
    }
  }

  // ---------------------------------------------------- steps keep the invariant

  /** A task that holds the key goes one level deeper. */
  lemma ReenteringKeeps(cfg: Config, s: KeyState, t: Task)
    requires KeyInv(cfg, s) && Depth(s, t) > 0
    ensures KeyInv(cfg, s.(held := s.held[t := s.held[t] + 1]))
  {
    var held := s.held[t := s.held[t] + 1];
    assert held.Keys == s.held.Keys;
    assert |held| == |held.Keys| && |s.held| == |s.held.Keys|;
  }

  /** A free permit is taken at once. */
  lemma TakingKeeps(cfg: Config, s: KeyState, t: Task)
    requires KeyInv(cfg, s) && !IsWaiting(s, t) && t !in s.held && !Locked(s)
    ensures KeyInv(cfg, s.(value := s.value - 1, active := s.active + 1, held := s.held[t := 1]))
  {
    var held := s.held[t := 1];
    assert held.Keys == s.held.Keys + {t};
    assert |held| == |held.Keys| && |s.held| == |s.held.Keys|;
  }

  /** Whoever has to queue up while a permit is free has somebody ahead who gets it. */
  lemma QueueingKeeps(cfg: Config, s: KeyState, t: Task)
    requires KeyInv(cfg, s) && !IsWaiting(s, t) && t !in s.held && Locked(s) && s.queued < cfg.maxQueued
    ensures KeyInv(cfg, s.(queued := s.queued + 1, waiters := s.waiters + [Waiter(t, Pending)]))
  {
    InFlightConcat(s.waiters, [Waiter(t, Pending)]);
    if s.value > 0 {
      var i :| 0 <= i < |s.waiters| && !s.waiters[i].phase.Interrupted?;
      if s.waiters[i].HoldsPermit() {
        InFlightWitness(s.waiters, i);
      } else {
        assert SomePending(s.waiters);
      }
    }
  }

  lemma BeginAcquireKeeps(cfg: Config, s: KeyState, t: Task)
    requires KeyInv(cfg, s) && !IsWaiting(s, t)
    ensures KeyInv(cfg, BeginAcquire(cfg, s, t).0)
  {
    if Depth(s, t) > 0 {
      ReenteringKeeps(cfg, s, t);
    } else if !Locked(s) {
      TakingKeeps(cfg, s, t);
    } else if s.queued < cfg.maxQueued {
      QueueingKeeps(cfg, s, t);
    }
  }

  lemma InterruptKeeps(cfg: Config, s: KeyState, t: Task)
    requires KeyInv(cfg, s)
    ensures KeyInv(cfg, Interrupt(s, t))
  {
    var i := IndexOf(s.waiters, t);
    if i < |s.waiters| {
      var w := s.waiters[i];
      var ws := Interrupt(s, t).waiters;
      if w.phase.Pending? {
        InFlightUpdate(s.waiters, i, w.(phase := Interrupted));
        if SomePending(ws) { assert s.waiters[FirstPending(ws)].phase.Pending?; }
      } else if w.phase.Granted? {
        InFlightUpdate(s.waiters, i, w.(phase := GrantedThenInterrupted));
        if SomePending(ws) { assert s.waiters[FirstPending(ws)].phase.Pending?; }
      }
    }
  }

  lemma RemovalKeepsShape(s: KeyState, i: nat)
    requires QueueShape(s) && i < |s.waiters|
    ensures QueueShape(s.(waiters := Without(s.waiters, i)))
    ensures forall w :: w in Without(s.waiters, i) ==> w.task != s.waiters[i].task
  {
    var ws := Without(s.waiters, i);
    forall j | 0 <= j < |ws|
      ensures ws[j] == s.waiters[if j < i then j else j + 1]
    {
    }
  }

  lemma RedistributionKeepsShape(s: KeyState, s': KeyState)
    requires QueueShape(s) && Redistributed(s, s') && FirstInFirstOut(s'.waiters)
    ensures QueueShape(s')
  {
    forall i, j | 0 <= i < j < |s'.waiters| ensures s'.waiters[i].task != s'.waiters[j].task {
      assert s.waiters[i].task != s.waiters[j].task;
    }
  }

  lemma LeftKeeps(cfg: Config, s: KeyState, i: nat)
    requires KeyInv(cfg, s) && i < |s.waiters| && !s.waiters[i].phase.Pending?
    ensures var left := Left(s, i);
            && QueueShape(left) && left.value >= 0 && |left.waiters| == |s.waiters| - 1
            && (forall j :: 0 <= j < |left.waiters| ==> left.waiters[j].task != s.waiters[i].task)
            && left.value + InFlight(left.waiters)
               == s.value + InFlight(s.waiters) - (if s.waiters[i].phase.Granted? then 1 else 0)
  {
    InFlightSplit(s.waiters, i);
    RemovalKeepsShape(s, i);
  }

  lemma WokenKeeps(cfg: Config, s: KeyState, i: nat)
    requires KeyInv(cfg, s) && i < |s.waiters| && !s.waiters[i].phase.Pending?
    ensures var awake := Woken(s, i);
            && QueueShape(awake) && awake == s.(value := awake.value, waiters := awake.waiters)
            && |awake.waiters| == |s.waiters| - 1
            && (forall w :: w in awake.waiters ==> w.task != s.waiters[i].task)
            && awake.value >= 0 && (awake.value == 0 || !SomePending(awake.waiters))
            && awake.value + InFlight(awake.waiters)
               == s.value + InFlight(s.waiters) - (if s.waiters[i].phase.Granted? then 1 else 0)
  {
    LeftKeeps(cfg, s, i);
    WakeAllKeeps(Left(s, i));
    RedistributionKeepsShape(Left(s, i), Woken(s, i));
  }

  lemma ResumeKeeps(cfg: Config, s: KeyState, t: Task)
    requires KeyInv(cfg, s) && IsWaiting(s, t) && !s.waiters[IndexOf(s.waiters, t)].phase.Pending?
    ensures KeyInv(cfg, Resume(s, t).0)
    ensures s.queued > 0
  {
    var i := IndexOf(s.waiters, t);
    WokenKeeps(cfg, s, i);
    AwakeSettles(cfg, s, Woken(s, i), i);
  }

  /** The bookkeeping after the wake-ups restores the invariant. */
  lemma AwakeSettles(cfg: Config, s: KeyState, awake: KeyState, i: nat)
    requires KeyInv(cfg, s) && i < |s.waiters| && !s.waiters[i].phase.Pending?
    requires QueueShape(awake) && awake == s.(value := awake.value, waiters := awake.waiters)
    requires |awake.waiters| == |s.waiters| - 1
    requires forall w :: w in awake.waiters ==> w.task != s.waiters[i].task
    requires awake.value >= 0 && (awake.value == 0 || !SomePending(awake.waiters))
    requires awake.value + InFlight(awake.waiters)
          == s.value + InFlight(s.waiters) - (if s.waiters[i].phase.Granted? then 1 else 0)
    ensures var t := s.waiters[i].task;
            KeyInv(cfg, if s.waiters[i].phase.Granted?
                        then awake.(queued := Max(0, s.queued - 1), active := s.active + 1,
                                    held := s.held[t := Depth(s, t) + 1])
                        else awake.(queued := Max(0, s.queued - 1)))
  {
    var t := s.waiters[i].task;
    assert t !in s.held;
    if s.waiters[i].phase.Granted? {
      var held := s.held[t := Depth(s, t) + 1];
      assert held.Keys == s.held.Keys + {t};
      assert |held| == |held.Keys| && |s.held| == |s.held.Keys|;
    }
  }

  lemma ReleaseKeeps(cfg: Config, s: KeyState, t: Task)
    requires KeyInv(cfg, s) && t in s.held
    ensures Release(s, t).Done? && KeyInv(cfg, Release(s, t).state)
    ensures s.active > 0
  {
    assert |s.held| == |s.held.Keys|;
    assert s.held.Keys == (s.held.Keys - {t}) + {t};
    if s.held[t] > 1 {
      var s' := Release(s, t).state;
      assert s'.held.Keys == s.held.Keys;
      assert |s'.held| == |s'.held.Keys|;
    } else {
      var popped := s.(held := s.held - {t}, value := s.value + 1);
      assert popped.held.Keys == s.held.Keys - {t};
      assert |popped.held| == |popped.held.Keys|;
      WakeOneKeeps(popped);
    }
  }

  /** Releasing a key the task does not hold over-releases exactly when every permit is free;
      otherwise it would take a permit from somebody. */
  lemma OverReleaseIff(cfg: Config, s: KeyState, t: Task)
    requires KeyInv(cfg, s)
    ensures Release(s, t).OverRelease? <==> s.held == map[] && InFlight(s.waiters) == 0
  {
    if t in s.held {
      ReleaseKeeps(cfg, s, t);
    }
    assert |s.held| == |s.held.Keys|;
    if |s.held.Keys| == 0 {
      assert s.held == map[];
    }
  }

  lemma SetCapacityKeeps(cfg: Config, s: KeyState, c: int)
    requires KeyInv(cfg, s)
    ensures KeyInv(cfg, SetCapacity(cfg, s, c))
    ensures SetCapacity(cfg, s, c).capacity <= s.capacity
    ensures SetCapacity(cfg, s, c) != s ==> s.held == map[] && s.waiters == []
  {
    if SetCapacity(cfg, s, c) != s {
      assert |s.held| == |s.held.Keys| == 0;
      assert s.held == map[];
    }
  }

  // ------------------------------------------------------- what it means

  /** No permit is stranded: a task left pending while nobody is about to wake up
      means every permit of the key is held by a running generation. */
  lemma PendingMeansSaturated(cfg: Config, s: KeyState)
    requires KeyInv(cfg, s)
    requires SomePending(s.waiters) && InFlight(s.waiters) == 0
    ensures |s.held| == s.capacity >= 1
  {
    assert s.value == 0;
  }

  /** Every waiter ahead has been struck by a timeout or a cancellation. */
  ghost predicate NobodyAhead(s: KeyState) {
    forall i :: 0 <= i < |s.waiters| ==> s.waiters[i].phase.Interrupted?
  }

  /** When an acquisition is granted, refused and queued: a holder gets in at once, and so
      does anybody while fewer permits are held or on their way than there are and nobody is
      ahead; anybody else is refused exactly when the queue is full, and otherwise goes to
      its end. Whatever is not said to change does not. */
  lemma AcquiredIff(cfg: Config, s: KeyState, t: Task)
    requires KeyInv(cfg, s) && !IsWaiting(s, t)
    ensures var (s', o) := BeginAcquire(cfg, s, t);
            && (o.Acquired? <==> t in s.held || (|s.held| + InFlight(s.waiters) < s.capacity && NobodyAhead(s)))
            && (o.QueueFull? <==> !o.Acquired? && |s.waiters| >= cfg.maxQueued)
            && (o.Waiting? <==> !o.Acquired? && |s.waiters| < cfg.maxQueued)
            && s'.capacity == s.capacity
            && s'.held == (if o.Acquired? then s.held[t := if t in s.held then s.held[t] + 1 else 1] else s.held)
            && s'.waiters == (if o.Waiting? then s.waiters + [Waiter(t, Pending)] else s.waiters)
            && s'.queued == |s'.waiters| && s'.active == |s'.held|
            && s'.value == s'.capacity - |s'.held| - InFlight(s'.waiters)
  {
    BeginAcquireKeeps(cfg, s, t);
  }

  /** A timeout or a cancellation that reaches a waiting task decides its wait: when it runs
      again it has not acquired, it is out of the queue, and a permit that was on its way to
      it is free again or on its way to somebody else. */
  lemma StruckIsNotServed(cfg: Config, s: KeyState, t: Task)
    requires KeyInv(cfg, s) && IsWaiting(s, t)
    ensures var struck := Interrupt(s, t);
            && IsWaiting(struck, t) && !struck.waiters[IndexOf(struck.waiters, t)].phase.Pending?
            && var (s', o) := Resume(struck, t);
               && o.NotAcquired? && !IsWaiting(s', t)
               && s'.held == s.held && |s'.waiters| == |s.waiters| - 1
               && s'.value + InFlight(s'.waiters) == s.value + InFlight(s.waiters)
  {
    var i := IndexOf(s.waiters, t);
    var struck := Interrupt(s, t);
    InterruptKeeps(cfg, s, t);
    StrikeStays(s, t);
    ResumeKeeps(cfg, struck, t);
    WokenKeeps(cfg, struck, i);
    var s' := Resume(struck, t).0;
    forall j | 0 <= j < |s'.waiters| ensures s'.waiters[j].task != t {
      assert s'.waiters[j] in s'.waiters;
    }
  }

  lemma {:induction false} IndexOfUpdated(ws: seq<Waiter>, t: Task, w: Waiter)
    requires IndexOf(ws, t) < |ws| && w.task == t
    ensures IndexOf(ws[IndexOf(ws, t) := w], t) == IndexOf(ws, t)
  {
    if ws[0].task != t {
      var i := IndexOf(ws, t);
      assert ws[i := w][1..] == ws[1..][i - 1 := w];
      IndexOfUpdated(ws[1..], t, w);
    }
  }

  lemma StrikeStays(s: KeyState, t: Task)
    requires IsWaiting(s, t)
    ensures var (i, struck) := (IndexOf(s.waiters, t), Interrupt(s, t));
            && |struck.waiters| == |s.waiters| && IndexOf(struck.waiters, t) == i
            && (struck.waiters[i].phase.Interrupted? || struck.waiters[i].phase.GrantedThenInterrupted?)
            && struck.held == s.held && struck.capacity == s.capacity
  {
    var i := IndexOf(s.waiters, t);
    IndexOfUpdated(s.waiters, t, s.waiters[i].(phase := Interrupted));
    IndexOfUpdated(s.waiters, t, s.waiters[i].(phase := GrantedThenInterrupted));
    assert s.waiters[i := s.waiters[i]] == s.waiters;
  }

  /** A tightening asked for while the key is in use leaves no trace at all: the
      new cap is in force afterwards exactly when the key was idle. */
  lemma TighteningTakesEffectIffIdle(cfg: Config, s: KeyState, c: int)
    requires KeyInv(cfg, s) && 1 <= c < s.capacity
    ensures SetCapacity(cfg, s, c).capacity == c <==> Idle(s)
    ensures !Idle(s) ==> SetCapacity(cfg, s, c) == s
    ensures Idle(s) <==> s.held == map[] && s.waiters == []
  {
    assert |s.held| == |s.held.Keys|;
    if Idle(s) {
      assert |s.held.Keys| == 0;
      assert s.held == map[];
    }
    if s.held == map[] && s.waiters == [] {
      assert InFlight(s.waiters) == 0;
      assert Idle(s);
    }
  }
}
