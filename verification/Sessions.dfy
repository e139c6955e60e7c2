/** The bounded session store: TTL expiry, least-recently-used eviction, and the
    per-session counters and loop state, against the plain log of calls. */
module Sessions {
  import opened LoopDetector
  import opened Wrappers

  type Time = real
  datatype Key = Key(session: string, route: string)

  datatype Memory = Memory(issues: int, status: string)

  /** Everything a session holds, `loop` being its loop detector's history. */
  datatype SessionValue = SessionValue(
    requestCount: nat,
    repairCount: nat,
    lastSeen: Time,
    recent: map<string, Memory>,
    loop: seq<Record>)

  datatype Act =
    | BeginAct(seen: Time, accessed: Time)
    | RepairAct(tool: string, issues: int, status: string, digest: string)

  const Blank := SessionValue(0, 0, 0.0, map[], [])

  /** The result class and repair flag recorded for a repair status. */
  function RepairRecord(tool: string, status: string, digest: string): Record {
    var result := if status == "repaired" || status == "regenerated" then "repair"
                  else if status == "rejected" then "rejection" else "success";
    Record(tool, digest, result, status == "repaired" || status == "regenerated")
  }

  function Perform(v: SessionValue, a: Act, maxRepairs: int): SessionValue {
    match a
    case BeginAct(seen, _) => v.(requestCount := v.requestCount + 1, lastSeen := seen)
    case RepairAct(tool, issues, status, digest) =>
      if v.repairCount < maxRepairs then
        v.(repairCount := v.repairCount + 1,
           recent := v.recent[tool := Memory(issues, status)],
           loop := v.loop + [RepairRecord(tool, status, digest)])
      else v
  }

  // ----------------------------------------------------------- one session

  const WINDOW := 10

  class SessionState {
    const key: Key
    var requestCount: nat
    var repairCount: nat
    var lastSeen: Time
    var recent: map<string, Memory>
    const loop: LoopState

    ghost predicate Valid()
      reads this, loop
    {
      loop.Valid() && loop.windowSize == WINDOW && loop.owner == (key.session, key.route)
    }

    ghost function Value(): SessionValue
      reads this, loop
    {
      SessionValue(requestCount, repairCount, lastSeen, recent, loop.history)
    }

    constructor (key: Key)
      ensures Valid() && Value() == Blank && fresh(loop) && this.key == key
    {
      this.key := key;
      requestCount, repairCount, lastSeen, recent := 0, 0, 0.0, map[];
      loop := new LoopState(WINDOW, (key.session, key.route));
    }

    /** `flagged`: the detector's flag is that of the whole history. */
    function Flagged(): (flagged: bool)
      reads this, loop
      requires Valid()
      ensures flagged <==> Looped(Value().loop, WINDOW)
    {
      loop.flagged
    }

    method Touch(now: Time)
      requires Valid()
      modifies this
      ensures Valid() && Value() == old(Value()).(requestCount := old(requestCount) + 1, lastSeen := now)
    {
      lastSeen := now;
      requestCount := requestCount + 1;
    }

    method RecordRepair(tool: string, issues: int, status: string, digest: string)
      requires Valid()
      modifies this, loop
      ensures Valid() && Value() == Perform(old(Value()), RepairAct(tool, issues, status, digest), old(repairCount) + 1)
      ensures recent == old(recent)[tool := Memory(issues, status)]
      ensures |loop.history| == |old(loop.history)| + 1 && loop.history[..|old(loop.history)|] == old(loop.history)
      ensures var r := loop.history[|loop.history| - 1];
              && r.tool == tool && r.digest == digest && (r.repaired <==> Mended(status))
              && r.result == if Mended(status) then "repair" else if status == "rejected" then "rejection" else "success"
    {
      repairCount := repairCount + 1;
      recent := recent[tool := Memory(issues, status)];
      loop.RecordTool(RepairRecord(tool, status, digest), false);
    }
  }

  // --------------------------------------------------------- the table's steps

  datatype Limits = Limits(ttl: Time, maxSessions: int, maxRepairs: int)

  /** `_sessions` and `_last_access`. */
  datatype Store = Store(sessions: map<Key, SessionValue>, access: map<Key, Time>)

  datatype Call =
    | BeginRequest(key: Key, evictAt: Time, seenAt: Time, accessAt: Time)
    | RecordRepair(key: Key, tool: string, issues: int, status: string, digest: string)
    | CountActive(now: Time)
    | Clear

  predicate Expired(v: SessionValue, now: Time, ttl: Time) { now - v.lastSeen > ttl }

  function Survivors(sessions: map<Key, SessionValue>, now: Time, ttl: Time): set<Key> {
    set k | k in sessions && !Expired(sessions[k], now, ttl)
  }

  ghost predicate LeastRecent(access: map<Key, Time>, keys: set<Key>, k: Key) {
    k in keys && forall k' :: k' in keys && k in access && k' in access ==> access[k] <= access[k']
  }

  /** Who may be in the table after `k` began a request: `k` itself; nobody expired; and
      everybody else, except that one of those whose last request began earliest has to
      go when `k` is new and the table was full. */
  ghost predicate Admits(before: set<Key>, access: map<Key, Time>, k: Key, maxSessions: int, after: set<Key>) {
    if k in before || |before| < maxSessions || before == {} then after == before + {k}
    else exists victim :: LeastRecent(access, before, victim) && after == before - {victim} + {k}
  }

  /** Every key but `k` that is in the later table has the entries it had. */
  ghost predicate OthersSame(s: Store, s': Store, k: Key) {
    forall k' :: k' in s'.sessions && k' != k ==>
      && k' in s.sessions && s'.sessions[k'] == s.sessions[k']
      && k' in s.access && k' in s'.access && s'.access[k'] == s.access[k']
  }

  ghost predicate Step(lim: Limits, s: Store, c: Call, s': Store) {
    && s'.sessions.Keys == s'.access.Keys
    && match c
       case BeginRequest(k, evictAt, seenAt, accessAt) =>
         var survivors := Survivors(s.sessions, evictAt, lim.ttl);
         && Admits(survivors, s.access, k, lim.maxSessions, s'.sessions.Keys)
         && OthersSame(s, s', k)
         && k in s'.sessions && s'.access[k] == accessAt
         && s'.sessions[k] == Perform(if k in survivors then s.sessions[k] else Blank, BeginAct(seenAt, accessAt), lim.maxRepairs)
       case RecordRepair(k, tool, issues, status, digest) =>
         && s'.access == s.access && OthersSame(s, s', k)
         && s'.sessions.Keys == s.sessions.Keys
         && (k in s.sessions ==>
               s'.sessions[k] == Perform(s.sessions[k], RepairAct(tool, issues, status, digest), lim.maxRepairs))
       case CountActive(now) =>
         && s'.sessions.Keys == Survivors(s.sessions, now, lim.ttl)
         && (forall k :: k in s'.sessions ==> s'.sessions[k] == s.sessions[k])
         && (forall k :: k in s'.access && k in s.access ==> s'.access[k] == s.access[k])
       case Clear => s' == Store(map[], map[])
  }

  // ------------------------------------------------------------- over whole runs

  const Empty := Store(map[], map[])

  ghost predicate IsRun(lim: Limits, states: seq<Store>, calls: seq<Call>) {
    && |states| == |calls| + 1
    && states[0] == Empty
    && forall i :: 0 <= i < |calls| ==> StepTaken(lim, states, calls, i)
  }

  /** The i-th call takes the i-th table to the next one. */
  ghost predicate StepTaken(lim: Limits, states: seq<Store>, calls: seq<Call>, i: nat)
    requires i < |calls| < |states|
  {
    Step(lim, states[i], calls[i], states[i + 1])
  }

  /** What a call does to the session of key `k`, if it is about that key. */
  function ActOn(c: Call, k: Key): seq<Act> {
    match c
    case BeginRequest(k', _, seenAt, accessAt) => if k == k' then [BeginAct(seenAt, accessAt)] else []
    case RecordRepair(k', tool, issues, status, digest) => if k == k' then [RepairAct(tool, issues, status, digest)] else []
    case _ => []
  }

  /** The session of key `k` that the calls from `b` up to `i` make, and nothing else. */
  function Replay(calls: seq<Call>, b: nat, i: nat, k: Key, maxRepairs: int): SessionValue
    requires b <= i <= |calls|
  {
    if b == i then Blank
    else Once(Replay(calls, b, i - 1, k, maxRepairs), ActOn(calls[i - 1], k), maxRepairs)
  }

  /** `Perform` of the one act, if there is one. */
  function Once(v: SessionValue, one: seq<Act>, maxRepairs: int): SessionValue {
    if one == [] then v else Perform(v, one[0], maxRepairs)
  }

  /** The call `c` on table `s` creates the session of `k`. */
  ghost predicate Creates(lim: Limits, s: Store, c: Call, k: Key) {
    c.BeginRequest? && c.key == k && k !in Survivors(s.sessions, c.evictAt, lim.ttl)
  }

  /** Key `k`, live after `i` calls, was created by call `b` and has been live since. */
  ghost predicate BornAt(lim: Limits, states: seq<Store>, calls: seq<Call>, i: nat, k: Key, b: nat)
    requires |states| == |calls| + 1 && i <= |calls|
  {
    && b < i
    && Creates(lim, states[b], calls[b], k)
    && forall j :: b < j <= i ==> k in states[j].sessions
  }

  /** What one call does to a session that was there and stays. */
  lemma StepOnKey(lim: Limits, s: Store, c: Call, s': Store, k: Key)
    requires Step(lim, s, c, s') && k in s'.sessions && !Creates(lim, s, c, k)
    ensures k in s.sessions
    ensures s'.sessions[k] == Once(s.sessions[k], ActOn(c, k), lim.maxRepairs)
  {
  }

  /** The table refines the log of calls: a session that is live after `i` calls is the
      replay of the calls made on its own key since the request that created it, whatever
      happened to other keys in between. */
  lemma {:induction false} SessionIsItsReplay(lim: Limits, states: seq<Store>, calls: seq<Call>, i: nat, k: Key) returns (b: nat)
    requires IsRun(lim, states, calls) && i <= |calls| && k in states[i].sessions
    ensures BornAt(lim, states, calls, i, k, b)
    ensures states[i].sessions[k] == Replay(calls, b, i, k, lim.maxRepairs)
  {
    assert i > 0;
    if Creates(lim, states[i - 1], calls[i - 1], k) {
      b := i - 1;
      assert StepTaken(lim, states, calls, b);
      assert Replay(calls, b, b, k, lim.maxRepairs) == Blank;
    } else {
      assert StepTaken(lim, states, calls, i - 1);
      StepOnKey(lim, states[i - 1], calls[i - 1], states[i], k);
      b := SessionIsItsReplay(lim, states, calls, i - 1, k);
    }
  }

  /** How many requests the calls from `b` up to `i` begin on `k`. */
  function RequestsOn(calls: seq<Call>, b: nat, i: nat, k: Key): nat
    requires b <= i <= |calls|
  {
    if b == i then 0
    else RequestsOn(calls, b, i - 1, k) + (if calls[i - 1].BeginRequest? && calls[i - 1].key == k then 1 else 0)
  }

  /** The records of the repairs reported for `k`, accepted or not. */
  function RepairsOn(calls: seq<Call>, b: nat, i: nat, k: Key): seq<Record>
    requires b <= i <= |calls|
  {
    if b == i then []
    else
      var c := calls[i - 1];
      RepairsOn(calls, b, i - 1, k)
        + (if c.RecordRepair? && c.key == k then [RepairRecord(c.tool, c.status, c.digest)] else [])
  }

  /** The first `n` of the records, or all of them when there are fewer. */
  function FirstOf<T>(records: seq<T>, n: int): (r: seq<T>)
    ensures |r| == if n < 0 then 0 else if |records| < n then |records| else n
    ensures r <= records
  {
    if n < 0 then [] else if |records| < n then records else records[..n]
  }

  lemma FirstOfMore<T>(records: seq<T>, r: T, n: int)
    ensures FirstOf(records + [r], n) ==
              if |FirstOf(records, n)| < n then FirstOf(records, n) + [r] else FirstOf(records, n)
  {
  }

  lemma {:induction false} ReplayCountsRequests(calls: seq<Call>, b: nat, i: nat, k: Key, maxRepairs: int)
    requires b <= i <= |calls|
    ensures Replay(calls, b, i, k, maxRepairs).requestCount == RequestsOn(calls, b, i, k)
  {
    if b < i {
      ReplayCountsRequests(calls, b, i - 1, k, maxRepairs);
    }
  }

  /** What an act adds to the repairs of its session. */
  function RecordsOf(a: Act): seq<Record> {
    if a.RepairAct? then [RepairRecord(a.tool, a.status, a.digest)] else []
  }

  lemma PerformKeepsRepairs(v: SessionValue, a: Act, repairs: seq<Record>, maxRepairs: int)
    requires v.repairCount == |v.loop| && v.loop == FirstOf(repairs, maxRepairs)
    ensures var w := Perform(v, a, maxRepairs);
            w.repairCount == |w.loop| && w.loop == FirstOf(repairs + RecordsOf(a), maxRepairs)
  {
    if a.RepairAct? {
      FirstOfMore(repairs, RepairRecord(a.tool, a.status, a.digest), maxRepairs);
    } else {
      assert repairs + [] == repairs;
    }
  }

  lemma RepairsGrow(calls: seq<Call>, b: nat, i: nat, k: Key)
    requires b < i <= |calls|
    ensures var acts := ActOn(calls[i - 1], k);
            RepairsOn(calls, b, i, k) == RepairsOn(calls, b, i - 1, k) + if acts == [] then [] else RecordsOf(acts[0])
  {
  }

  lemma {:induction false} ReplayKeepsRepairs(calls: seq<Call>, b: nat, i: nat, k: Key, maxRepairs: int)
    requires b <= i <= |calls|
    ensures var v := Replay(calls, b, i, k, maxRepairs);
            v.repairCount == |v.loop| && v.loop == FirstOf(RepairsOn(calls, b, i, k), maxRepairs)
  {
    if b < i {
      ReplayKeepsRepairs(calls, b, i - 1, k, maxRepairs);
      RepairsGrow(calls, b, i, k);
      var (acts, before) := (ActOn(calls[i - 1], k), RepairsOn(calls, b, i - 1, k));
      if acts == [] {
        assert before + [] == before;
      } else {
        PerformKeepsRepairs(Replay(calls, b, i - 1, k, maxRepairs), acts[0], before, maxRepairs);
      }
    }
  }

  /** In closed form: the request counter counts the requests since creation, the repair
      counter the repairs up to the bound, and the loop detector has seen exactly the
      first `maxRepairs` of them, in order. */
  lemma ReplayCounts(calls: seq<Call>, b: nat, i: nat, k: Key, maxRepairs: int)
    requires b <= i <= |calls|
    ensures var v := Replay(calls, b, i, k, maxRepairs);
            && v.requestCount == RequestsOn(calls, b, i, k)
            && v.repairCount == |v.loop|
            && v.loop == FirstOf(RepairsOn(calls, b, i, k), maxRepairs)
  {
    ReplayCountsRequests(calls, b, i, k, maxRepairs);
    ReplayKeepsRepairs(calls, b, i, k, maxRepairs);
  }

  /** A live session's flag, over the records of its repairs. */
  lemma RecordsFlagIff(lim: Limits, states: seq<Store>, calls: seq<Call>, i: nat, k: Key) returns (b: nat)
    requires IsRun(lim, states, calls) && i <= |calls| && k in states[i].sessions
    ensures BornAt(lim, states, calls, i, k, b)
    ensures var repairs := FirstOf(RepairsOn(calls, b, i, k), lim.maxRepairs);
            Looped(states[i].sessions[k].loop, WINDOW)
            <==> exists n :: 0 <= n <= |repairs| && (FourRepairs(repairs[..n]) || ThreeAlike(repairs[..n], 5))
  {
    b := SessionIsItsReplay(lim, states, calls, i, k);
    ReplayCounts(calls, b, i, k, lim.maxRepairs);
    WindowOfFiveIsEnough(states[i].sessions[k].loop, WINDOW);
  }

  // ------------------------------------------------ repairs as they were reported

  predicate Mended(status: string) { status == "repaired" || status == "regenerated" }

  /** Neither is more of a repair, nor more of a rejection, than the other. */
  predicate SameClass(s: string, t: string) {
    (Mended(s) <==> Mended(t)) && (s == "rejected" <==> t == "rejected")
  }

  predicate Reports(c: Call, k: Key) { c.RecordRepair? && c.key == k }

  /** The repairs reported for `k` by the calls from `b` up to `i`. */
  function ReportsOn(calls: seq<Call>, b: nat, i: nat, k: Key): (cs: seq<Call>)
    requires b <= i <= |calls|
    ensures forall n :: 0 <= n < |cs| ==> Reports(cs[n], k)
  {
    if b == i then []
    else ReportsOn(calls, b, i - 1, k) + (if Reports(calls[i - 1], k) then [calls[i - 1]] else [])
  }

  ghost predicate AllReports(cs: seq<Call>) { forall n :: 0 <= n < |cs| ==> cs[n].RecordRepair? }

  /** The last four were repaired or regenerated. */
  ghost predicate FourMended(cs: seq<Call>)
    requires AllReports(cs)
  {
    |cs| >= 4 && forall n :: |cs| - 4 <= n < |cs| ==> Mended(cs[n].status)
  }

  predicate SameRepair(c: Call, d: Call)
    requires c.RecordRepair? && d.RecordRepair?
  {
    c.tool == d.tool && c.digest == d.digest && SameClass(c.status, d.status)
  }

  ghost predicate SameAt(cs: seq<Call>, i: int, j: int, k: int)
    requires AllReports(cs)
  {
    0 <= i < j < k < |cs| && SameRepair(cs[i], cs[j]) && SameRepair(cs[i], cs[k])
  }

  /** Among the last five are three of the same tool, digest and class of status. */
  ghost predicate ThreeSame(cs: seq<Call>)
    requires AllReports(cs)
  {
    exists i, j, k :: |cs| - 5 <= i && SameAt(cs, i, j, k)
  }

  /** The records are those of the reports, one each. */
  ghost predicate RecordsOfReports(records: seq<Record>, cs: seq<Call>) {
    && |records| == |cs| && AllReports(cs)
    && forall n :: 0 <= n < |cs| ==> records[n] == RepairRecord(cs[n].tool, cs[n].status, cs[n].digest)
  }

  lemma {:induction false} RecordsAreReports(calls: seq<Call>, b: nat, i: nat, k: Key)
    requires b <= i <= |calls|
    ensures RecordsOfReports(RepairsOn(calls, b, i, k), ReportsOn(calls, b, i, k))
  {
    if b < i {
      RecordsAreReports(calls, b, i - 1, k);
    }
  }

  lemma SameRecordIff(c: Call, d: Call)
    requires c.RecordRepair? && d.RecordRepair?
    ensures RepairRecord(c.tool, c.status, c.digest).SameCall(RepairRecord(d.tool, d.status, d.digest)) <==> SameRepair(c, d)
    ensures RepairRecord(c.tool, c.status, c.digest).repaired <==> Mended(c.status)
  {
    assert "repair" != "rejection" && "repair" != "success" && "rejection" != "success" by {
      assert |"repair"| == 6 && |"rejection"| == 9 && |"success"| == 7;
    }
    assert "rejected" != "repaired" && "rejected" != "regenerated" by {
      assert "rejected"[2] == 'j' && "repaired"[2] == 'p' && "regenerated"[2] == 'g';
    }
  }

  lemma LoopsAlike(records: seq<Record>, cs: seq<Call>)
    requires RecordsOfReports(records, cs)
    ensures FourRepairs(records) <==> FourMended(cs)
    ensures ThreeAlike(records, 5) <==> ThreeSame(cs)
  {
    forall n | 0 <= n < |cs| ensures records[n].repaired <==> Mended(cs[n].status) {
      SameRecordIff(cs[n], cs[n]);
    }
    forall m, n | 0 <= m < |cs| && 0 <= n < |cs| ensures records[m].SameCall(records[n]) <==> SameRepair(cs[m], cs[n]) {
      SameRecordIff(cs[m], cs[n]);
    }
    if i, j, k :| |cs| - 5 <= i && SameAt(cs, i, j, k) {
      assert AlikeAt(records, i, j, k);
    }
    if i, j, k :| |records| - 5 <= i && AlikeAt(records, i, j, k) {
      assert SameAt(cs, i, j, k);
    }
  }

  /** A live session is flagged if and only if, among the first `maxRepairs` repairs reported
      for its key since the request that created it, some prefix ends in four whose status
      is "repaired" or "regenerated", or has among its last five three of the same tool,
      the same digest and the same class of status. */
  lemma SessionIsFlaggedIff(lim: Limits, states: seq<Store>, calls: seq<Call>, i: nat, k: Key) returns (b: nat)
    requires IsRun(lim, states, calls) && i <= |calls| && k in states[i].sessions
    ensures BornAt(lim, states, calls, i, k, b)
    ensures var cs := FirstOf(ReportsOn(calls, b, i, k), lim.maxRepairs);
            AllReports(cs) &&
            (Looped(states[i].sessions[k].loop, WINDOW)
             <==> exists n :: 0 <= n <= |cs| && (FourMended(cs[..n]) || ThreeSame(cs[..n])))
  {
    b := RecordsFlagIff(lim, states, calls, i, k);
    RecordsAreReports(calls, b, i, k);
    var (records, cs) := (FirstOf(RepairsOn(calls, b, i, k), lim.maxRepairs), FirstOf(ReportsOn(calls, b, i, k), lim.maxRepairs));
    forall n | 0 <= n <= |cs|
      ensures (FourRepairs(records[..n]) || ThreeAlike(records[..n], 5)) <==> (FourMended(cs[..n]) || ThreeSame(cs[..n]))
    {
      LoopsAlike(records[..n], cs[..n]);
    }
  }

  /** What was last reported of a tool. */
  function LastReport(cs: seq<Call>, tool: string): Option<Memory>
    requires forall n :: 0 <= n < |cs| ==> cs[n].RecordRepair?
  {
    if cs == [] then None
    else if cs[|cs| - 1].tool == tool then Some(Memory(cs[|cs| - 1].issues, cs[|cs| - 1].status))
    else LastReport(cs[..|cs| - 1], tool)
  }

  function Remembered(v: SessionValue, tool: string): Option<Memory> {
    if tool in v.recent then Some(v.recent[tool]) else None
  }

  /** One more report, accepted or not. */
  lemma ReportIsRemembered(v: SessionValue, cs: seq<Call>, c: Call, maxRepairs: int, tool: string)
    requires AllReports(cs) && c.RecordRepair?
    requires v.repairCount == |FirstOf(cs, maxRepairs)| && Remembered(v, tool) == LastReport(FirstOf(cs, maxRepairs), tool)
    ensures var w := Perform(v, RepairAct(c.tool, c.issues, c.status, c.digest), maxRepairs);
            w.repairCount == |FirstOf(cs + [c], maxRepairs)|
            && Remembered(w, tool) == LastReport(FirstOf(cs + [c], maxRepairs), tool)
  {
    var first := FirstOf(cs, maxRepairs);
    FirstOfMore(cs, c, maxRepairs);
    assert (first + [c])[..|first|] == first;
  }

  lemma {:induction false} ReplayRemembers(calls: seq<Call>, b: nat, i: nat, k: Key, maxRepairs: int, tool: string)
    requires b <= i <= |calls|
    ensures var (v, cs) := (Replay(calls, b, i, k, maxRepairs), FirstOf(ReportsOn(calls, b, i, k), maxRepairs));
            v.repairCount == |cs| && Remembered(v, tool) == LastReport(cs, tool)
  {
    if b < i {
      ReplayRemembers(calls, b, i - 1, k, maxRepairs, tool);
      var before := ReportsOn(calls, b, i - 1, k);
      if Reports(calls[i - 1], k) {
        ReportIsRemembered(Replay(calls, b, i - 1, k, maxRepairs), before, calls[i - 1], maxRepairs, tool);
      } else {
        assert before + [] == before;
      }
    }
  }

  /** What a live session remembers of a tool is the last accepted repair reported of it since
      the session was created, and nothing if there was none. */
  lemma RecentIsLastReport(lim: Limits, states: seq<Store>, calls: seq<Call>, i: nat, k: Key, tool: string)
    returns (b: nat)
    requires IsRun(lim, states, calls) && i <= |calls| && k in states[i].sessions
    ensures BornAt(lim, states, calls, i, k, b)
    ensures Remembered(states[i].sessions[k], tool) == LastReport(FirstOf(ReportsOn(calls, b, i, k), lim.maxRepairs), tool)
  {
    b := SessionIsItsReplay(lim, states, calls, i, k);
    ReplayRemembers(calls, b, i, k, lim.maxRepairs, tool);
  }

  predicate Begins(c: Call, k: Key) { c.BeginRequest? && c.key == k }

  /** The last of the first `i` calls that begins a request on `k`, and 0 when none does:
      the n-th call is number n + 1. */
  function LastRequest(calls: seq<Call>, i: nat, k: Key): (b: nat)
    requires i <= |calls|
    ensures b <= i && (b > 0 ==> Begins(calls[b - 1], k))
    ensures forall j :: b <= j < i ==> !Begins(calls[j], k)
  {
    if i == 0 then 0 else if Begins(calls[i - 1], k) then i else LastRequest(calls, i - 1, k)
  }

  lemma AccessAfterStep(lim: Limits, states: seq<Store>, calls: seq<Call>, i: nat, k: Key)
    requires IsRun(lim, states, calls) && 0 < i <= |calls| && k in states[i].access
    ensures if Begins(calls[i - 1], k) then states[i].access[k] == calls[i - 1].accessAt
            else k in states[i - 1].access && states[i].access[k] == states[i - 1].access[k]
  {
    TableIsBounded(lim, states, calls, i - 1);
    var (s, c, s') := (states[i - 1], calls[i - 1], states[i]);
    assert StepTaken(lim, states, calls, i - 1);
    assert k in s'.access.Keys && k in s'.sessions.Keys;
    if c.CountActive? {
      assert k in s.sessions.Keys && k in s.access.Keys;
    }
  }

  /** The access time of a live session is that of the last request begun on its key. */
  lemma {:induction false} AccessIsLastRequest(lim: Limits, states: seq<Store>, calls: seq<Call>, i: nat, k: Key)
    requires IsRun(lim, states, calls) && i <= |calls| && k in states[i].access
    ensures LastRequest(calls, i, k) > 0
    ensures states[i].access[k] == calls[LastRequest(calls, i, k) - 1].accessAt
  {
    assert i > 0;
    AccessAfterStep(lim, states, calls, i, k);
    if !Begins(calls[i - 1], k) {
      AccessIsLastRequest(lim, states, calls, i - 1, k);
    }
  }

  lemma AdmitsBounded(before: set<Key>, access: map<Key, Time>, k: Key, maxSessions: int, after: set<Key>)
    requires Admits(before, access, k, maxSessions, after)
    requires |before| <= 1 || |before| <= maxSessions
    ensures k in after && (|after| <= 1 || |after| <= maxSessions)
  {
    if k in before {
      assert after == before;
    } else if |before| < maxSessions || before == {} {
      assert |after| == |before| + 1;
    } else {
      var victim :| LeastRecent(access, before, victim) && after == before - {victim} + {k};
      assert |before - {victim}| == |before| - 1;
      assert |after| == |before|;
    }
  }

  lemma SubsetSize(a: set<Key>, b: set<Key>)
    requires a <= b
    ensures |a| <= |b|
  {
    assert b == a + (b - a);
  }

  ghost predicate SizeAllowed(lim: Limits, s: Store) {
    |s.sessions.Keys| <= 1 || |s.sessions.Keys| <= lim.maxSessions
  }

  lemma SurvivorsAllowed(lim: Limits, s: Store, now: Time)
    requires SizeAllowed(lim, s)
    ensures |Survivors(s.sessions, now, lim.ttl)| <= 1 || |Survivors(s.sessions, now, lim.ttl)| <= lim.maxSessions
  {
    SubsetSize(Survivors(s.sessions, now, lim.ttl), s.sessions.Keys);
  }

  lemma StepStaysBounded(lim: Limits, s: Store, c: Call, s': Store)
    requires Step(lim, s, c, s') && SizeAllowed(lim, s)
    ensures SizeAllowed(lim, s') && s'.sessions.Keys == s'.access.Keys
  {
    match c {
      case BeginRequest(k, evictAt, _, _) =>
        SurvivorsAllowed(lim, s, evictAt);
        AdmitsBounded(Survivors(s.sessions, evictAt, lim.ttl), s.access, k, lim.maxSessions, s'.sessions.Keys);
      case CountActive(now) => SurvivorsAllowed(lim, s, now);
      case _ =>
    }
  }

  /** The table never holds more sessions than allowed, one being always allowed, and its
      two dictionaries never disagree on which sessions exist. */
  lemma {:induction false} TableIsBounded(lim: Limits, states: seq<Store>, calls: seq<Call>, i: nat)
    requires IsRun(lim, states, calls) && i <= |calls|
    ensures states[i].sessions.Keys == states[i].access.Keys
    ensures |states[i].sessions.Keys| <= 1 || |states[i].sessions.Keys| <= lim.maxSessions
  {
    if i > 0 {
      TableIsBounded(lim, states, calls, i - 1);
      assert StepTaken(lim, states, calls, i - 1);
      StepStaysBounded(lim, states[i - 1], calls[i - 1], states[i]);
    }
  }

  /** When the last request on `k` among the first `i` calls was seen, and when accessed. */
  function LastSeen(calls: seq<Call>, i: nat, k: Key): Time
    requires i <= |calls| && LastRequest(calls, i, k) > 0
  {
    calls[LastRequest(calls, i, k) - 1].seenAt
  }

  function LastAccess(calls: seq<Call>, i: nat, k: Key): Time
    requires i <= |calls| && LastRequest(calls, i, k) > 0
  {
    calls[LastRequest(calls, i, k) - 1].accessAt
  }

  lemma SeenAfterStep(lim: Limits, states: seq<Store>, calls: seq<Call>, i: nat, k: Key)
    requires IsRun(lim, states, calls) && 0 < i <= |calls| && k in states[i].sessions
    ensures if Begins(calls[i - 1], k) then states[i].sessions[k].lastSeen == calls[i - 1].seenAt
            else k in states[i - 1].sessions && states[i].sessions[k].lastSeen == states[i - 1].sessions[k].lastSeen
  {
    assert StepTaken(lim, states, calls, i - 1);
  }

  /** A live session was last seen when the last request was begun on its key. */
  lemma {:induction false} SeenIsLastRequest(lim: Limits, states: seq<Store>, calls: seq<Call>, i: nat, k: Key)
    requires IsRun(lim, states, calls) && i <= |calls| && k in states[i].sessions
    ensures LastRequest(calls, i, k) > 0
    ensures states[i].sessions[k].lastSeen == LastSeen(calls, i, k)
  {
    assert i > 0;
    SeenAfterStep(lim, states, calls, i, k);
    if !Begins(calls[i - 1], k) {
      SeenIsLastRequest(lim, states, calls, i - 1, k);
    }
  }

  /** The session of `k` has to go for that of `newcomer`: the table is full of sessions that
      have not expired, none of them the newcomer's, and no request on another one of them
      was begun before the last one on `k`. */
  ghost predicate HasToGo(lim: Limits, states: seq<Store>, calls: seq<Call>, i: nat, k: Key)
    requires |states| == |calls| + 1 && i < |calls| && calls[i].BeginRequest?
  {
    var alive := Survivors(states[i].sessions, calls[i].evictAt, lim.ttl);
    && k in alive && calls[i].key !in alive && |alive| >= lim.maxSessions
    && forall j :: j in alive ==>
         LastRequest(calls, i, j) > 0 && LastRequest(calls, i, k) > 0 && LastAccess(calls, i, k) <= LastAccess(calls, i, j)
  }

  /** The last request on `k` was seen longer ago than a session may live. */
  ghost predicate RanOut(lim: Limits, calls: seq<Call>, i: nat, k: Key, now: Time)
    requires i <= |calls| && LastRequest(calls, i, k) > 0
  {
    now - LastSeen(calls, i, k) > lim.ttl
  }

  ghost predicate Leaves(states: seq<Store>, i: nat, k: Key)
    requires i + 1 < |states|
  {
    k in states[i].sessions && k !in states[i + 1].sessions
  }

  lemma VictimHasToGo(lim: Limits, states: seq<Store>, calls: seq<Call>, i: nat, k: Key)
    requires IsRun(lim, states, calls) && i < |calls| && calls[i].BeginRequest? && k in states[i].access
    requires var alive := Survivors(states[i].sessions, calls[i].evictAt, lim.ttl);
             && calls[i].key !in alive && |alive| >= lim.maxSessions && LeastRecent(states[i].access, alive, k)
    ensures HasToGo(lim, states, calls, i, k)
  {
    var alive := Survivors(states[i].sessions, calls[i].evictAt, lim.ttl);
    TableIsBounded(lim, states, calls, i);
    forall j | j in alive
      ensures LastRequest(calls, i, j) > 0 && states[i].access[j] == LastAccess(calls, i, j)
    {
      assert j in states[i].sessions.Keys;
      AccessIsLastRequest(lim, states, calls, i, j);
    }
  }

  /** Over every run, who leaves the table with a call. With a clear, everybody; with a count
      of the active sessions, exactly those whose time has run out; with a recorded repair,
      nobody. With a request on some other key, everybody whose time has run out, and of the
      others at most one, which has to go; and one does go whenever the table is full. */
  lemma WhoLeaves(lim: Limits, states: seq<Store>, calls: seq<Call>, i: nat, k: Key)
    requires IsRun(lim, states, calls) && i < |calls| && k in states[i].sessions
    ensures LastRequest(calls, i, k) > 0
    ensures match calls[i]
            case Clear => Leaves(states, i, k)
            case CountActive(_) => Leaves(states, i, k) <==> RanOut(lim, calls, i, k, calls[i].now)
            case RecordRepair(_, _, _, _, _) => !Leaves(states, i, k)
            case BeginRequest(_, _, _, _) =>
              if k == calls[i].key then !Leaves(states, i, k)
              else if RanOut(lim, calls, i, k, calls[i].evictAt) then Leaves(states, i, k)
              else Leaves(states, i, k) ==> HasToGo(lim, states, calls, i, k)
  {
    assert StepTaken(lim, states, calls, i);
    SeenIsLastRequest(lim, states, calls, i, k);
    TableIsBounded(lim, states, calls, i);
    if calls[i].BeginRequest? && calls[i].key != k && !RanOut(lim, calls, i, k, calls[i].evictAt) && Leaves(states, i, k) {
      assert k in states[i].sessions.Keys;
      VictimHasToGo(lim, states, calls, i, k);
    }
  }

  /** Besides those whose time has run out, a request makes exactly one session leave if its
      key is new and the table is full, and none otherwise. */
  lemma OneLeavesIffFull(lim: Limits, states: seq<Store>, calls: seq<Call>, i: nat)
    requires IsRun(lim, states, calls) && i < |calls| && calls[i].BeginRequest?
    ensures var alive := Survivors(states[i].sessions, calls[i].evictAt, lim.ttl);
            var gone := alive - states[i + 1].sessions.Keys;
            |gone| == if calls[i].key !in alive && alive != {} && |alive| >= lim.maxSessions then 1 else 0
  {
    assert StepTaken(lim, states, calls, i);
    var (alive, k) := (Survivors(states[i].sessions, calls[i].evictAt, lim.ttl), calls[i].key);
    var after := states[i + 1].sessions.Keys;
    assert Admits(alive, states[i].access, k, lim.maxSessions, after);
    if k in alive || |alive| < lim.maxSessions || alive == {} {
      assert alive - after == {};
    } else {
      var victim :| LeastRecent(states[i].access, alive, victim) && after == alive - {victim} + {k};
      assert alive - after == {victim};
    }
  }

  // ------------------------------------------------ one request, in three parts

  /** Evicting, making room and touching add up to the step. */
  lemma BeginIsStep(lim: Limits, before: Store, kept: Store, room: Store, after: Store,
                    k: Key, evictAt: Time, seenAt: Time, accessAt: Time)
    requires before.sessions.Keys == before.access.Keys && kept.sessions.Keys == kept.access.Keys
    requires kept.sessions.Keys == Survivors(before.sessions, evictAt, lim.ttl)
    requires SubTable(before, kept)
    requires Roomy(lim, kept, room, k)
    requires var v := Perform(room.sessions[k], BeginAct(seenAt, accessAt), lim.maxRepairs);
             after == Store(room.sessions[k := v], room.access[k := accessAt])
    ensures Step(lim, before, BeginRequest(k, evictAt, seenAt, accessAt), after)
  {
    var v := Perform(room.sessions[k], BeginAct(seenAt, accessAt), lim.maxRepairs);
    var survivors := Survivors(before.sessions, evictAt, lim.ttl);
    RoomForSurvivors(lim, before, kept, room, k, survivors);
    Touched(lim, before, room, k, evictAt, seenAt, accessAt, v);
  }

  lemma RoomForSurvivors(lim: Limits, before: Store, kept: Store, room: Store, k: Key, survivors: set<Key>)
    requires kept.sessions.Keys == kept.access.Keys == survivors && SubTable(before, kept) && Roomy(lim, kept, room, k)
    ensures Admits(survivors, before.access, k, lim.maxSessions, room.sessions.Keys)
    ensures room.sessions[k] == (if k in survivors then before.sessions[k] else Blank)
    ensures OthersSame(before, Store(room.sessions, room.access), k)
  {
    AdmittedSurvivors(lim, survivors, kept.access, before.access, k, room.sessions.Keys);
  }

  lemma Touched(lim: Limits, before: Store, room: Store, k: Key, evictAt: Time, seenAt: Time, accessAt: Time, v: SessionValue)
    requires room.access.Keys + {k} == room.sessions.Keys
    requires Admits(Survivors(before.sessions, evictAt, lim.ttl), before.access, k, lim.maxSessions, room.sessions.Keys)
    requires OthersSame(before, room, k)
    requires v == Perform(if k in Survivors(before.sessions, evictAt, lim.ttl) then before.sessions[k] else Blank,
                          BeginAct(seenAt, accessAt), lim.maxRepairs)
    ensures Step(lim, before, BeginRequest(k, evictAt, seenAt, accessAt),
                 Store(room.sessions[k := v], room.access[k := accessAt]))
  {
    assert room.sessions[k := v].Keys == room.sessions.Keys == room.access[k := accessAt].Keys;
  }

  /** `s'` is part of `s`. */
  ghost predicate SubTable(s: Store, s': Store) {
    && (forall k :: k in s'.sessions ==> k in s.sessions && s'.sessions[k] == s.sessions[k])
    && (forall k :: k in s'.access ==> k in s.access && s'.access[k] == s.access[k])
  }

  /** `s'` is `s` with room for `k`, which is there. */
  ghost predicate Roomy(lim: Limits, s: Store, s': Store, k: Key) {
    && Admits(s.sessions.Keys, s.access, k, lim.maxSessions, s'.sessions.Keys)
    && s'.access.Keys + {k} == s'.sessions.Keys
    && k in s'.sessions && s'.sessions[k] == (if k in s.sessions then s.sessions[k] else Blank)
    && (forall k' :: k' in s'.sessions && k' != k ==>
          && k' in s.sessions && s'.sessions[k'] == s.sessions[k']
          && k' in s.access && s'.access[k'] == s.access[k'])
  }

  lemma AdmittedSurvivors(lim: Limits, before: set<Key>, kept: map<Key, Time>, access: map<Key, Time>, k: Key, after: set<Key>)
    requires before == kept.Keys && before <= access.Keys
    requires forall k' :: k' in kept ==> kept[k'] == access[k']
    requires Admits(before, kept, k, lim.maxSessions, after)
    ensures Admits(before, access, k, lim.maxSessions, after)
  {
    if !(k in before || |before| < lim.maxSessions || before == {}) {
      var victim :| LeastRecent(kept, before, victim) && after == before - {victim} + {k};
      assert LeastRecent(access, before, victim);
    }
  }

  lemma RoomyAlready(lim: Limits, s: Store, k: Key)
    requires s.sessions.Keys == s.access.Keys && k in s.sessions
    ensures Roomy(lim, s, s, k)
  {
    assert s.sessions.Keys == s.sessions.Keys + {k};
  }

  lemma RoomyWithNew(lim: Limits, s: Store, k: Key)
    requires s.sessions.Keys == s.access.Keys && k !in s.sessions
    requires |s.sessions.Keys| < lim.maxSessions || s.sessions == map[]
    ensures Roomy(lim, s, s.(sessions := s.sessions[k := Blank]), k)
  {
    assert s.sessions[k := Blank].Keys == s.sessions.Keys + {k};
  }

  lemma RoomyWithVictim(lim: Limits, s: Store, k: Key, victim: Key)
    requires s.sessions.Keys == s.access.Keys && k !in s.sessions && |s.sessions.Keys| >= lim.maxSessions
    requires LeastRecent(s.access, s.sessions.Keys, victim)
    ensures Roomy(lim, s, Store((s.sessions - {victim})[k := Blank], s.access - {victim}), k)
  {
    var sessions := (s.sessions - {victim})[k := Blank];
    assert sessions.Keys == s.sessions.Keys - {victim} + {k};
    assert s.sessions.Keys != {};
    assert Admits(s.sessions.Keys, s.access, k, lim.maxSessions, sessions.Keys);
    assert (s.access - {victim}).Keys == s.access.Keys - {victim};
  }

  // ----------------------------------------------------------- the manager

  class SessionManager {
    const limits: Limits
    var sessions: map<Key, SessionState>
    var lastAccess: map<Key, Time>

    /** The values the sessions stand for, and the objects they are made of. */
    ghost var table: Store
    ghost var repr: set<object>

    /** The session of `k` is its own, and stands for its value. */
    ghost predicate Holds(k: Key)
      reads this, repr
      requires k in sessions
    {
      && sessions[k] in repr && sessions[k].loop in repr
      && sessions[k].Valid() && sessions[k].key == k
      && k in table.sessions && sessions[k].Value() == table.sessions[k]
    }

    /** The objects are the sessions of the table of values. */
    ghost predicate Tied()
      reads this, repr
    {
      && sessions.Keys == table.sessions.Keys && lastAccess == table.access
      && forall k {:trigger Holds(k)} :: k in sessions ==> Holds(k)
    }

    ghost predicate Valid()
      reads this, repr
    {
      sessions.Keys == lastAccess.Keys && Tied()
    }

    constructor (limits: Limits)
      ensures this.limits == limits && table == Empty && Valid() && repr == {}
    {
      this.limits := limits;
      sessions, lastAccess := map[], map[];
      table, repr := Empty, {};
    }

    /** `_evict_expired`: exactly the expired keys leave. */
    method EvictExpired(now: Time)
      requires Valid()
      modifies this
      ensures Valid() && repr == old(repr)
      ensures sessions.Keys == Survivors(old(table).sessions, now, limits.ttl)
      ensures forall k :: k in sessions ==> sessions[k] == old(sessions)[k]
      ensures SubTable(old(table), table)
    {
      var expired := FindExpired(now);
      RemoveAll(expired);
      assert sessions.Keys == old(sessions).Keys - expired;
    }

    /** These sessions leave both dictionaries. */
    method RemoveAll(keys: set<Key>)
      requires Valid() && keys <= sessions.Keys
      modifies this
      ensures Valid() && repr == old(repr)
      ensures sessions == old(sessions) - keys
      ensures table == Store(old(table).sessions - keys, old(table).access - keys)
    {
      var todo := keys;
      while todo != {}
        invariant Valid() && repr == old(repr) && todo <= keys
        invariant sessions == old(sessions) - (keys - todo)
        invariant table == Store(old(table).sessions - (keys - todo), old(table).access - (keys - todo))
        decreases todo
      {
        var k :| k in todo;
        Remove(k);
        todo := todo - {k};
      }
    }

    /** The keys whose time to live has run out. */
    method FindExpired(now: Time) returns (expired: set<Key>)
      requires Valid()
      ensures expired !! Survivors(table.sessions, now, limits.ttl)
      ensures sessions.Keys == Survivors(table.sessions, now, limits.ttl) + expired
    {
      expired := set k | k in sessions && now - sessions[k].lastSeen > limits.ttl;
      forall k | k in sessions ensures k in expired <==> Expired(table.sessions[k], now, limits.ttl) {
        assert Holds(k);
      }
    }

    /** A session leaves both dictionaries. */
    method Remove(k: Key)
      requires Valid() && k in sessions
      modifies this
      ensures Valid() && repr == old(repr)
      ensures sessions == old(sessions) - {k}
      ensures table == Store(old(table).sessions - {k}, old(table).access - {k})
    {
      sessions, lastAccess := sessions - {k}, lastAccess - {k};
      table := Store(table.sessions - {k}, table.access - {k});
      forall j | j in sessions ensures Holds(j) {
        assert old(Holds(j));
      }
    }

    /** `_evict_lru`: one key of minimal last access leaves, if there is any. */
    method EvictLru() returns (ghost victim: Key)
      requires Valid()
      modifies this
      ensures Valid() && repr == old(repr)
      ensures if old(sessions) == map[] then sessions == old(sessions) && table == old(table)
              else LeastRecent(old(table).access, old(table).sessions.Keys, victim)
                   && sessions == old(sessions) - {victim}
                   && table == Store(old(table).sessions - {victim}, old(table).access - {victim})
    {
      victim := Key("", "");
      if lastAccess == map[] {
        return;
      }
      var oldest := FindOldest(lastAccess);
      victim := oldest;
      Remove(oldest);
    }

    /** `min` over the access times. */
    static method FindOldest(access: map<Key, Time>) returns (oldest: Key)
      requires access != map[]
      ensures oldest in access && LeastRecent(access, access.Keys, oldest)
    {
      var todo := access.Keys;
      assert todo != {};
      oldest :| oldest in todo;
      todo := todo - {oldest};
      while todo != {}
        invariant oldest in access && todo <= access.Keys
        invariant forall k :: k in access && k !in todo ==> access[oldest] <= access[k]
        decreases todo
      {
        var k :| k in todo;
        if access[k] < access[oldest] {
          oldest := k;
        }
        todo := todo - {k};
      }
    }

    /** `begin_request`, reading the clock at `evictAt`, `seenAt` and `accessAt`: it hands out
        the session itself, the one it already had unless that had expired. */
    method Begin(k: Key, evictAt: Time, seenAt: Time, accessAt: Time) returns (session: SessionState)
      requires Valid()
      modifies this, repr
      ensures Valid() && fresh(repr - old(repr))
      ensures Step(limits, old(table), BeginRequest(k, evictAt, seenAt, accessAt), table)
      ensures k in sessions && session == sessions[k]
      ensures if k in Survivors(old(table).sessions, evictAt, limits.ttl) then session == old(sessions)[k]
              else fresh(session) && fresh(session.loop)
    {
      ghost var before := table;
      EvictExpired(evictAt);
      ghost var kept := table;
      ghost var room;
      session, room := Enter(k, seenAt, accessAt);
      BeginIsStep(limits, before, kept, room, table, k, evictAt, seenAt, accessAt);
    }

    /** The part of `begin_request` behind the eviction; `room` is the table before the touch. */
    method Enter(k: Key, seenAt: Time, accessAt: Time) returns (session: SessionState, ghost room: Store)
      requires Valid()
      modifies this, repr
      ensures Valid() && fresh(repr - old(repr)) && k in sessions && session == sessions[k]
      ensures Roomy(limits, old(table), room, k)
      ensures var v := Perform(room.sessions[k], BeginAct(seenAt, accessAt), limits.maxRepairs);
              table == Store(room.sessions[k := v], room.access[k := accessAt])
      ensures if k in old(sessions) then session == old(sessions)[k] else fresh(session) && fresh(session.loop)
    {
      MakeRoom(k);
      room := table;
      assert Holds(k);
      session := Touch(k, seenAt, accessAt);
    }

    /** The part of `begin_request` that creates a missing session. */
    method MakeRoom(k: Key)
      requires Valid()
      modifies this
      ensures Tied() && k in sessions && fresh(repr - old(repr))
      ensures Roomy(limits, old(table), table, k)
      ensures if k in old(sessions) then sessions[k] == old(sessions)[k] else fresh(sessions[k]) && fresh(sessions[k].loop)
    {
      if k in sessions {
        RoomyAlready(limits, table, k);
        return;
      }
      ghost var before := table;
      assert |sessions| == |sessions.Keys|;
      if |sessions| >= limits.maxSessions {
        ghost var victim := EvictLru();
        if before.sessions.Keys != {} {
          RoomyWithVictim(limits, before, k, victim);
        } else {
          RoomyWithNew(limits, before, k);
        }
      } else {
        RoomyWithNew(limits, before, k);
      }
      Create(k);
    }

    /** A new session under a key that has none. */
    method Create(k: Key)
      requires Tied() && k !in sessions
      modifies this
      ensures Tied() && sessions.Keys == old(sessions).Keys + {k}
      ensures fresh(repr - old(repr)) && fresh(sessions[k]) && fresh(sessions[k].loop)
      ensures table == old(table).(sessions := old(table).sessions[k := Blank])
    {
      var session := new SessionState(k);
      sessions := sessions[k := session];
      table := table.(sessions := table.sessions[k := Blank]);
      repr := repr + {session, session.loop};
      forall j | j in sessions ensures Holds(j) {
        assert j != k ==> old(Holds(j));
      }
    }

    /** The part of `begin_request` that touches the session. */
    method Touch(k: Key, seenAt: Time, accessAt: Time) returns (session: SessionState)
      requires Tied() && k in sessions
      modifies this, sessions[k]
      ensures Tied() && repr == old(repr) && sessions == old(sessions) && session == sessions[k]
      ensures var v := Perform(old(table).sessions[k], BeginAct(seenAt, accessAt), limits.maxRepairs);
              table == Store(old(table).sessions[k := v], old(table).access[k := accessAt])
    {
      session := sessions[k];
      assert Holds(k);
      forall j | j in sessions && j != k ensures Holds(j) && sessions[j] != session && sessions[j].loop != session.loop {
        Apart(j, k);
      }
      session.Touch(seenAt);
      ghost var v := Perform(table.sessions[k], BeginAct(seenAt, accessAt), limits.maxRepairs);
      assert session.Value() == v;
      lastAccess := lastAccess[k := accessAt];
      table := Store(table.sessions[k := v], table.access[k := accessAt]);
      assert Holds(k);
      forall j | j in sessions && j != k ensures Holds(j) {
        assert old(Holds(j));
      }
    }

    /** Two keys share neither session nor detector. */
    lemma Apart(j: Key, k: Key)
      requires j in sessions && k in sessions && Holds(j) && Holds(k) && j != k
      ensures sessions[j] != sessions[k] && sessions[j].loop != sessions[k].loop
    {
    }

    /** `record_repair`: the session is updated in place, if it is there and below the bound. */
    method Repair(k: Key, tool: string, issues: int, status: string, digest: string)
      requires Valid()
      modifies this`table, repr
      ensures Valid()
      ensures Step(limits, old(table), RecordRepair(k, tool, issues, status, digest), table)
    {
      if k in sessions {
        assert Holds(k);
        if sessions[k].repairCount < limits.maxRepairs {
          Record(k, tool, issues, status, digest);
        }
      }
    }

    /** The part of `record_repair` that touches the session. */
    method Record(k: Key, tool: string, issues: int, status: string, digest: string)
      requires Tied() && k in sessions && sessions[k].repairCount < limits.maxRepairs
      modifies this`table, repr
      ensures Tied()
      ensures var v := Perform(old(table).sessions[k], RepairAct(tool, issues, status, digest), limits.maxRepairs);
              table == old(table).(sessions := old(table).sessions[k := v])
    {
      var session := sessions[k];
      assert Holds(k);
      forall j | j in sessions && j != k ensures Holds(j) && sessions[j] != session && sessions[j].loop != session.loop {
        Apart(j, k);
      }
      session.RecordRepair(tool, issues, status, digest);
      ghost var v := Perform(table.sessions[k], RepairAct(tool, issues, status, digest), limits.maxRepairs);
      assert session.Value() == v;
      table := table.(sessions := table.sessions[k := v]);
      assert Holds(k);
      forall j | j in sessions && j != k ensures Holds(j) {
        assert old(Holds(j));
      }
    }

    /** `active_count`. */
    method ActiveCount(now: Time) returns (n: nat)
      requires Valid()
      modifies this
      ensures Valid() && repr == old(repr) && Step(limits, old(table), CountActive(now), table)
      ensures n == |Survivors(old(table).sessions, now, limits.ttl)|
    {
      EvictExpired(now);
      assert |sessions| == |sessions.Keys|;
      n := |sessions|;
    }

    method ClearAll()
      modifies this
      ensures Valid() && Step(limits, old(table), Clear, table)
    {
      sessions, lastAccess := map[], map[];
      table, repr := Empty, {};
    }
  }
}
