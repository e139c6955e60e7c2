/** `InferenceAdmissionController` and `_GenerationSlot` as objects: each method is
    one stretch of code between two suspensions, and its contract is the transition
    the run theorems are about. */
module AdmissionController {
  import opened Admission
  import opened Numbers
  import opened AdmissionRuns

  class InferenceAdmissionController {
    const config: Config
    var states: map<Key, KeyState>

    constructor (config: Config)
      ensures this.config == config && states == Start.states
    {
      this.config := config;
      states := map[];
    }

    function View(k: Key): KeyState
      reads this
    {
      if k in states then states[k] else Fresh(config)
    }

    /** `_get_state`: the key's state, created on first use. */
    method GetState(k: Key) returns (s: KeyState)
      modifies this
      ensures s == old(View(k)) && states == old(states)[k := s]
    {
      if k !in states {
        states := states[k := KeyState(config.maxConcurrent, config.maxConcurrent, [], 0, 0, map[])];
      }
      s := states[k];
      assert states == old(states)[k := s];
    }

    /** `acquire`, up to its return or its wait. */
    method BeginAcquire(k: Key, t: Task) returns (o: Outcome)
      modifies this
      ensures states == old(states)[k := Admission.BeginAcquire(config, old(View(k)), t).0]
      ensures o == Admission.BeginAcquire(config, old(View(k)), t).1
    {
      var s := GetState(k);
      if t in s.held && s.held[t] > 0 {
        states := states[k := s.(held := s.held[t := s.held[t] + 1])];
        return Acquired;
      }
      if !Locked(s) {
        s := s.(value := s.value - 1);
        s := s.(held := s.held[t := 1]);
        s := s.(active := s.active + 1);
        states := states[k := s];
        return Acquired;
      }
      if s.queued >= config.maxQueued {
        return QueueFull;
      }
      s := s.(queued := s.queued + 1);
      s := s.(waiters := s.waiters + [Waiter(t, Pending)]);
      states := states[k := s];
      o := Waiting;
    }

    /** `acquire` from the end of its wait: leave the queue, give back a permit that
        came too late, wake up whoever may go, and settle the counters. */
    method Resume(k: Key, t: Task) returns (o: Outcome)
      requires k in states && IsWaiting(states[k], t)
      requires !states[k].waiters[IndexOf(states[k].waiters, t)].phase.Pending?
      modifies this
      ensures states == old(states)[k := Admission.Resume(old(states[k]), t).0]
      ensures o == Admission.Resume(old(states[k]), t).1
    {
      var s := states[k];
      var i := IndexOf(s.waiters, t);
      var phase := s.waiters[i].phase;
      var before := s;
      s := s.(waiters := Without(s.waiters, i));
      if phase.GrantedThenInterrupted? {
        s := s.(value := s.value + 1);
      }
      s := WakeUpAll(s);
      s := s.(queued := Max(0, before.queued - 1));
      o := NotAcquired;
      if phase.Granted? {
        s := s.(active := before.active + 1, held := before.held[t := Depth(before, t) + 1]);
        o := Acquired;
      }
      states := states[k := s];
    }

    /** The semaphore's wake-up loop. */
    static method WakeUpAll(start: KeyState) returns (s: KeyState)
      ensures s == WakeAll(start)
      ensures s.held == start.held && s.queued == start.queued && s.active == start.active
    {
      s := start;
      while s.value > 0
        invariant WakeAll(s) == WakeAll(start)
        invariant s.held == start.held && s.queued == start.queued && s.active == start.active
        decreases s.value
      {
        if FirstPending(s.waiters) == |s.waiters| {
          break;
        }
        s := WakeOne(s);
      }
    }

    /** A timeout or cancellation reaches a sleeping task. */
    method Interrupt(k: Key, t: Task)
      requires k in states && IsWaiting(states[k], t)
      modifies this
      ensures states == old(states)[k := Admission.Interrupt(old(states[k]), t)]
    {
      var s := states[k];
      var i := IndexOf(s.waiters, t);
      match s.waiters[i].phase {
        case Pending => s := s.(waiters := s.waiters[i := Waiter(t, Interrupted)]);
        case Granted => s := s.(waiters := s.waiters[i := Waiter(t, GrantedThenInterrupted)]);
        case _ =>
      }
      states := states[k := s];
    }

    /** `release_by_key`; `ok` is false when the bounded semaphore raises. */
    method ReleaseByKey(k: Key, t: Task) returns (ok: bool)
      modifies this
      ensures k !in old(states) ==> ok && states == old(states)
      ensures k in old(states) ==>
                && ok == Release(old(states)[k], t).Done?
                && states == old(states)[k := Release(old(states)[k], t).state]
    {
      if k !in states {
        return true;
      }
      var s := states[k];
      var held := Depth(s, t);
      if held > 1 {
        states := states[k := s.(held := s.held[t := held - 1])];
        return true;
      }
      s := s.(held := s.held - {t});
      if s.value >= s.capacity {
        states := states[k := s];
        return false;
      }
      s := WakeOne(s.(value := s.value + 1));
      s := s.(active := Max(0, s.active - 1));
      states := states[k := s];
      ok := true;
    }

    /** `set_route_capacity`. */
    method SetRouteCapacity(k: Key, c: int)
      modifies this
      ensures c < 1 ==> states == old(states)
      ensures c >= 1 ==> states == old(states)[k := SetCapacity(config, old(View(k)), c)]
    {
      if c < 1 {
        return;
      }
      var s := GetState(k);
      var target := Min(c, config.maxConcurrent);
      if target >= s.capacity {
        return;
      }
      if s.active == 0 && s.queued == 0 && s.value == s.capacity {
        states := states[k := KeyState(target, target, [], s.queued, s.active, s.held)];
      }
    }
  }

  /** The acquisition token: `release_now` and both exits run the same code. */
  class GenerationSlot {
    const controller: InferenceAdmissionController
    const task: Task
    const key: Key
    const acquired: bool
    var released: bool

    constructor (controller: InferenceAdmissionController, task: Task, key: Key, acquired: bool)
      ensures this.controller == controller && Token() == Slot(task, key, acquired, false)
    {
      this.controller := controller;
      this.task, this.key, this.acquired, this.released := task, key, acquired, false;
    }

    function Token(): Slot
      reads this
    {
      Slot(task, key, acquired, released)
    }

    /** For any list of tokens in which this one stands at `i`, the effect is the
        transition `ReleaseToken`. */
    method ReleaseNow(ghost tokens: seq<Slot>, ghost i: nat) returns (ok: bool)
      requires i < |tokens| && tokens[i] == Token() && key in controller.states
      modifies this, controller
      ensures System(controller.states, tokens[i := Token()])
           == ReleaseToken(System(old(controller.states), tokens), i)
      ensures ok <==> old(Token().Live()) ==> Release(old(controller.states)[key], task).Done?
    {
      ok := true;
      if !released && acquired {
        ok := controller.ReleaseByKey(key, task);
        if ok {
          released := true;
        }
      }
      assert tokens[i := tokens[i]] == tokens;
    }
  }
}
