/** Accumulating a stream's tool-call fragments: which calls are open, how big they may
    grow, and the order in which they are completed. */
module StreamAccumulator {
  import opened Wrappers

  datatype Key = Key(choice: int, tool: int)

  predicate Before(a: Key, b: Key) { a.choice < b.choice || (a.choice == b.choice && a.tool < b.tool) }

  /** An empty id is a missing one. */
  datatype Call = Call(key: Key, id: string, name: string, arguments: string, completed: bool)

  datatype Limits = Limits(maxBytes: int, maxCalls: int)

  /** The open calls in the order they were started, and the finished ones. */
  datatype Acc = Acc(pending: seq<Call>, completed: seq<Call>)

  /** The bytes of a character in UTF-8. */
  function Width(c: char): nat {
    if c as int < 0x80 then 1 else if c as int < 0x800 then 2 else if c as int < 0x10000 then 3 else 4
  }

  function Bytes(s: string): nat { if s == "" then 0 else Width(s[0]) + Bytes(s[1..]) }

  function Find(calls: seq<Call>, key: Key): (i: nat)
    ensures i <= |calls|
    ensures i < |calls| ==> calls[i].key == key
    ensures forall j :: 0 <= j < i ==> calls[j].key != key
  {
    FindFrom(calls, key, 0)
  }

  function FindFrom(calls: seq<Call>, key: Key, from: nat): (i: nat)
    requires from <= |calls|
    ensures from <= i <= |calls|
    ensures i < |calls| ==> calls[i].key == key
    ensures forall j :: from <= j < i ==> calls[j].key != key
    decreases |calls| - from
  {
    if from == |calls| || calls[from].key == key then from else FindFrom(calls, key, from + 1)
  }

  ghost predicate Distinct(calls: seq<Call>) {
    forall i, j :: 0 <= i < j < |calls| ==> calls[i].key != calls[j].key
  }

  ghost predicate Within(limits: Limits, a: Acc) {
    && |a.pending| <= (if limits.maxCalls < 0 then 0 else limits.maxCalls)
    && (forall i :: 0 <= i < |a.pending| ==>
          a.pending[i].arguments == "" || Bytes(a.pending[i].arguments) <= limits.maxBytes)
    && (forall i :: 0 <= i < |a.completed| ==>
          a.completed[i].arguments == "" || Bytes(a.completed[i].arguments) <= limits.maxBytes)
  }

  // ------------------------------------------------------------- operations

  /** `start_call`; None where it raises. */
  function Start(limits: Limits, a: Acc, key: Key, id: string): Option<Acc> {
    var i := Find(a.pending, key);
    if i < |a.pending| then
      Some(if id != "" && a.pending[i].id == "" then a.(pending := a.pending[i := a.pending[i].(id := id)]) else a)
    else if |a.pending| >= limits.maxCalls then None
    else Some(a.(pending := a.pending + [Call(key, id, "", "", false)]))
  }

  datatype Fed = Fed(acc: Acc) | TooManyCalls | TooLarge

  function FeedName(limits: Limits, a: Acc, key: Key, fragment: string): Fed {
    match Start(limits, a, key, "")
    case None => TooManyCalls
    case Some(b) =>
      var i := Find(b.pending, key);
      if i == |b.pending| then TooManyCalls
      else Fed(b.(pending := b.pending[i := b.pending[i].(name := b.pending[i].name + fragment)]))
  }

  function FeedArguments(limits: Limits, a: Acc, key: Key, fragment: string): Fed {
    match Start(limits, a, key, "")
    case None => TooManyCalls
    case Some(b) =>
      var i := Find(b.pending, key);
      if i == |b.pending| then TooManyCalls
      else if Bytes(b.pending[i].arguments) + Bytes(fragment) > limits.maxBytes then TooLarge
      else Fed(b.(pending := b.pending[i := b.pending[i].(arguments := b.pending[i].arguments + fragment)]))
  }

  /** A fragment event: start the call if need be, then whatever the fragment carries. */
  function Feed(limits: Limits, a: Acc, key: Key, id: string, name: string, arguments: string): Fed {
    match Start(limits, a, key, id)
    case None => TooManyCalls
    case Some(b) =>
      var named := if name == "" then Fed(b) else FeedName(limits, b, key, name);
      if !named.Fed? || arguments == "" then named else FeedArguments(limits, named.acc, key, arguments)
  }

  function Without(calls: seq<Call>, i: nat): (r: seq<Call>)
    requires i < |calls|
    ensures |r| == |calls| - 1
    ensures forall j :: 0 <= j < |r| ==> r[j] == calls[if j < i then j else j + 1]
  {
    calls[..i] + calls[i + 1..]
  }

  /** `complete_call`, and with `ok` false the failing of an open call. */
  function Complete(a: Acc, key: Key, ok: bool): Acc {
    var i := Find(a.pending, key);
    if i == |a.pending| then a
    else Acc(Without(a.pending, i), a.completed + [a.pending[i].(completed := ok)])
  }

  function LeastIndex(calls: seq<Call>, n: nat): (i: nat)
    requires 0 < n <= |calls|
    ensures i < n && forall j :: 0 <= j < n ==> !Before(calls[j].key, calls[i].key)
  {
    if n == 1 then 0
    else
      var i := LeastIndex(calls, n - 1);
      if Before(calls[n - 1].key, calls[i].key) then n - 1 else i
  }

  /** `complete_all_pending`: the open calls, by choice and then by tool index. */
  function CompleteAll(a: Acc, ok: bool): (r: Acc)
    ensures r.pending == []
    decreases |a.pending|
  {
    if a.pending == [] then a
    else CompleteAll(Complete(a, a.pending[LeastIndex(a.pending, |a.pending|)].key, ok), ok)
  }

  // ------------------------------------------------------------ their lemmas

  /** A character in UTF-8, as section 3 of RFC 3629 writes it. */
  function Utf8(c: char): (bytes: seq<int>)
    ensures forall i :: 0 <= i < |bytes| ==> 0 <= bytes[i] < 256
  {
    var n := c as int;
    if n < 0x80 then [n]
    else if n < 0x800 then [0xC0 + n / 0x40, 0x80 + n % 0x40]
    else if n < 0x10000 then [0xE0 + n / 0x1000, 0x80 + n / 0x40 % 0x40, 0x80 + n % 0x40]
    else [0xF0 + n / 0x40000, 0x80 + n / 0x1000 % 0x40, 0x80 + n / 0x40 % 0x40, 0x80 + n % 0x40]
  }

  function Encoded(s: string): seq<int> { if s == "" then [] else Utf8(s[0]) + Encoded(s[1..]) }

  /** The length that is limited is that of the encoded text. */
  lemma {:induction false} BytesAreUtf8(s: string)
    ensures Bytes(s) == |Encoded(s)|
  {
    if s != "" {
      BytesAreUtf8(s[1..]);
    }
  }

  lemma {:induction false} BytesConcat(a: string, b: string)
    ensures Bytes(a + b) == Bytes(a) + Bytes(b)
  {
    if a == "" {
      assert a + b == b;
    } else {
      assert (a + b)[1..] == a[1..] + b;
      BytesConcat(a[1..], b);
    }
  }

  /** What a fragment does to the one call it belongs to. */
  function Grown(c: Call, id: string, name: string, arguments: string): Call {
    c.(id := if c.id == "" then id else c.id, name := c.name + name, arguments := c.arguments + arguments)
  }

  /** A fragment of the open call `i`. */
  function FeedAt(limits: Limits, a: Acc, i: nat, id: string, name: string, arguments: string): Fed
    requires i < |a.pending|
  {
    var grown := Grown(a.pending[i], id, name, arguments);
    if arguments != "" && Bytes(grown.arguments) > limits.maxBytes then TooLarge
    else Fed(a.(pending := a.pending[i := grown]))
  }

  /** A fragment event in one step: it fails exactly when it would open one call too many
      or make its call too big, and otherwise grows its own call and touches no other. */
  function FeedSpec(limits: Limits, a: Acc, key: Key, id: string, name: string, arguments: string): Fed {
    var i := Find(a.pending, key);
    if i < |a.pending| then FeedAt(limits, a, i, id, name, arguments)
    else if |a.pending| >= limits.maxCalls then TooManyCalls
    else FeedAt(limits, a.(pending := a.pending + [Call(key, "", "", "", false)]), i, id, name, arguments)
  }

  lemma FindStarted(calls: seq<Call>, key: Key, c: Call)
    requires Find(calls, key) == |calls| && c.key == key
    ensures Find(calls + [c], key) == |calls|
  {
    assert forall j :: 0 <= j < |calls| ==> (calls + [c])[j] == calls[j];
    assert (calls + [c])[|calls|].key == key;
  }

  lemma FindUpdated(calls: seq<Call>, i: nat, c: Call)
    requires i < |calls| && i == Find(calls, calls[i].key) && c.key == calls[i].key
    ensures Find(calls[i := c], c.key) == i
  {
    assert calls[i := c][i].key == c.key;
    assert forall j :: 0 <= j < i ==> calls[i := c][j] == calls[j];
  }

  lemma FeedOpened(limits: Limits, a: Acc, key: Key, id: string, name: string, arguments: string)
    requires Find(a.pending, key) < |a.pending|
    ensures Feed(limits, a, key, id, name, arguments)
         == FeedAt(limits, a, Find(a.pending, key), id, name, arguments)
  {
    var i := Find(a.pending, key);
    var c := a.pending[i];
    var b := a.(pending := a.pending[i := c.(id := if c.id == "" then id else c.id)]);
    FindUpdated(a.pending, i, b.pending[i]);
    assert a.pending[i := c] == a.pending;
    FeedTail(limits, b, key, i, name, arguments);
    BytesConcat(c.arguments, arguments);
  }

  lemma FeedStarted(limits: Limits, a: Acc, key: Key, id: string, name: string, arguments: string)
    requires Find(a.pending, key) == |a.pending| < limits.maxCalls
    ensures Feed(limits, a, key, id, name, arguments)
         == FeedAt(limits, a.(pending := a.pending + [Call(key, "", "", "", false)]), |a.pending|, id, name, arguments)
  {
    var i := |a.pending|;
    var b := a.(pending := a.pending + [Call(key, id, "", "", false)]);
    FindStarted(a.pending, key, b.pending[i]);
    FeedTail(limits, b, key, i, name, arguments);
    BytesConcat("", arguments);
  }

  lemma FeedIsOneStep(limits: Limits, a: Acc, key: Key, id: string, name: string, arguments: string)
    ensures Feed(limits, a, key, id, name, arguments) == FeedSpec(limits, a, key, id, name, arguments)
  {
    if Find(a.pending, key) < |a.pending| {
      FeedOpened(limits, a, key, id, name, arguments);
    } else if |a.pending| < limits.maxCalls {
      FeedStarted(limits, a, key, id, name, arguments);
    }
  }

  /** Feeding name and arguments to a call that is open. */
  lemma FeedTail(limits: Limits, b: Acc, key: Key, i: nat, name: string, arguments: string)
    requires i < |b.pending| && i == Find(b.pending, key)
    ensures var named := if name == "" then Fed(b) else FeedName(limits, b, key, name);
            && named.Fed?
            && (if arguments == "" then named else FeedArguments(limits, named.acc, key, arguments))
               == if arguments != "" && Bytes(b.pending[i].arguments) + Bytes(arguments) > limits.maxBytes then TooLarge
                  else Fed(b.(pending := b.pending[i := Grown(b.pending[i], "", name, arguments)]))
  {
    var c := b.pending[i];
    FindUpdated(b.pending, i, c.(name := c.name + name));
    assert c.name + "" == c.name && c.arguments + "" == c.arguments;
    assert b.pending[i := c] == b.pending;
  }

  lemma FeedAtTwice(limits: Limits, a: Acc, i: nat, id: string, name: string, arguments: string,
                    id': string, name': string, arguments': string)
    requires i < |a.pending|
    ensures var first := FeedAt(limits, a, i, id, name, arguments);
            FeedAt(limits, a, i, if id == "" then id' else id, name + name', arguments + arguments')
            == if first.Fed? then FeedAt(limits, first.acc, i, id', name', arguments') else first
  {
    var c := a.pending[i];
    GrownTwice(c, id, name, arguments, id', name', arguments');
    MergedSize(c.arguments, arguments, arguments');
    if arguments == "" {
      assert c.arguments + arguments == c.arguments && arguments + arguments' == arguments';
    }
    if arguments' == "" {
      assert arguments + arguments' == arguments;
    }
  }

  /** Two fragments of the same call in a row are one fragment: it fails exactly when one
      of the two does, and otherwise leaves the same calls. */
  lemma FragmentsMerge(limits: Limits, a: Acc, key: Key, id: string, name: string, arguments: string,
                       id': string, name': string, arguments': string)
    ensures var first := Feed(limits, a, key, id, name, arguments);
            var both := Feed(limits, a, key, if id == "" then id' else id, name + name', arguments + arguments');
            both == if first.Fed? then Feed(limits, first.acc, key, id', name', arguments') else first
  {
    var first := Feed(limits, a, key, id, name, arguments);
    FeedIsOneStep(limits, a, key, id, name, arguments);
    FeedIsOneStep(limits, a, key, if id == "" then id' else id, name + name', arguments + arguments');
    var i := Find(a.pending, key);
    if i < |a.pending| || |a.pending| < limits.maxCalls {
      var b := if i < |a.pending| then a else a.(pending := a.pending + [Call(key, "", "", "", false)]);
      FeedAtTwice(limits, b, i, id, name, arguments, id', name', arguments');
      if first.Fed? {
        FeedIsOneStep(limits, first.acc, key, id', name', arguments');
        OpenStaysFound(a, b, key, i, Grown(b.pending[i], id, name, arguments));
      }
    }
  }

  lemma OpenStaysFound(a: Acc, b: Acc, key: Key, i: nat, c: Call)
    requires i == Find(a.pending, key) && c.key == key
    requires b.pending == if i < |a.pending| then a.pending else a.pending + [Call(key, "", "", "", false)]
    ensures Find(b.pending[i := c], key) == i < |b.pending|
  {
    if i == |a.pending| {
      FindStarted(a.pending, key, b.pending[i]);
    }
    FindUpdated(b.pending, i, c);
  }

  lemma MergedSize(held: string, more: string, rest: string)
    ensures Bytes(held + (more + rest)) == Bytes(held + more) + Bytes(rest)
    ensures Bytes(held + more) <= Bytes(held + (more + rest))
  {
    assert held + (more + rest) == (held + more) + rest;
    BytesConcat(held + more, rest);
  }

  lemma GrownTwice(c: Call, id: string, name: string, arguments: string,
                   id': string, name': string, arguments': string)
    ensures Grown(Grown(c, id, name, arguments), id', name', arguments')
         == Grown(c, if id == "" then id' else id, name + name', arguments + arguments')
  {
    assert (c.name + name) + name' == c.name + (name + name');
    assert (c.arguments + arguments) + arguments' == c.arguments + (arguments + arguments');
  }

  /** No event takes the accumulator over its limits. */
  lemma FeedStaysWithin(limits: Limits, a: Acc, key: Key, id: string, name: string, arguments: string)
    requires Within(limits, a) && Feed(limits, a, key, id, name, arguments).Fed?
    ensures Within(limits, Feed(limits, a, key, id, name, arguments).acc)
  {
    FeedIsOneStep(limits, a, key, id, name, arguments);
    var i := Find(a.pending, key);
    if i < |a.pending| {
      assert a.pending[i].arguments + "" == a.pending[i].arguments;
    }
  }

  lemma CompleteStaysWithin(limits: Limits, a: Acc, key: Key, ok: bool)
    requires Within(limits, a)
    ensures Within(limits, Complete(a, key, ok))
  {
  }

  /** Completing everything moves each open call, once, behind the calls already finished,
      in the order of the keys, with nothing but its flag changed. */
  lemma {:induction false} CompleteAllInOrder(a: Acc, ok: bool)
    requires Distinct(a.pending)
    ensures var r := CompleteAll(a, ok);
            && |r.completed| == |a.completed| + |a.pending|
            && (forall j :: 0 <= j < |a.completed| ==> r.completed[j] == a.completed[j])
            && (forall j :: |a.completed| <= j < |r.completed| ==> OpenIn(a.pending, r.completed[j], ok))
            && (forall j, k :: |a.completed| <= j < k < |r.completed| ==>
                  Before(r.completed[j].key, r.completed[k].key))
    decreases |a.pending|
  {
    if a.pending != [] {
      var i := LeastIndex(a.pending, |a.pending|);
      var key := a.pending[i].key;
      var b := Complete(a, key, ok);
      DistinctWithout(a.pending, i);
      CompleteAllInOrder(b, ok);
      var (r, n) := (CompleteAll(a, ok), |a.completed|);
      assert r.completed[n] == b.completed[n] == a.pending[i].(completed := ok);
      forall j | n <= j < |r.completed| ensures OpenIn(a.pending, r.completed[j], ok) {
        if j > n {
          StillOpen(a.pending, i, r.completed[j], ok);
        }
      }
      forall j | n < j < |r.completed| ensures Before(key, r.completed[j].key) {
        LeastIsFirst(a.pending, i, r.completed[j], ok);
      }
    }
  }

  /** `c` is one of the given calls with its flag set. */
  ghost predicate OpenIn(calls: seq<Call>, c: Call, ok: bool) {
    exists i :: 0 <= i < |calls| && calls[i].(completed := ok) == c
  }

  lemma DistinctWithout(calls: seq<Call>, i: nat)
    requires i < |calls| && Distinct(calls)
    ensures Distinct(Without(calls, i))
    ensures Find(calls, calls[i].key) == i
  {
  }

  lemma StillOpen(calls: seq<Call>, i: nat, c: Call, ok: bool)
    requires i < |calls| && OpenIn(Without(calls, i), c, ok)
    ensures OpenIn(calls, c, ok)
  {
    var rest := Without(calls, i);
    var j :| 0 <= j < |rest| && rest[j].(completed := ok) == c;
    assert rest[j] == calls[if j < i then j else j + 1];
  }

  lemma LeastIsFirst(calls: seq<Call>, i: nat, c: Call, ok: bool)
    requires i < |calls| && Distinct(calls) && i == LeastIndex(calls, |calls|)
    requires OpenIn(Without(calls, i), c, ok)
    ensures Before(calls[i].key, c.key)
  {
    var rest := Without(calls, i);
    var j :| 0 <= j < |rest| && rest[j].(completed := ok) == c;
    var k := if j < i then j else j + 1;
    assert rest[j] == calls[k] && !Before(calls[k].key, calls[i].key) && calls[k].key != calls[i].key;
  }

  /** No event opens a second call for a key. */
  lemma StepsStayDistinct(limits: Limits, a: Acc, key: Key, id: string, name: string, arguments: string, ok: bool)
    requires Distinct(a.pending)
    ensures Feed(limits, a, key, id, name, arguments).Fed? ==>
              Distinct(Feed(limits, a, key, id, name, arguments).acc.pending)
    ensures Distinct(Complete(a, key, ok).pending)
  {
    FeedIsOneStep(limits, a, key, id, name, arguments);
    if Find(a.pending, key) < |a.pending| {
      DistinctWithout(a.pending, Find(a.pending, key));
    }
  }

}

/** The accumulator as the object the stream engine works on. */
module PendingToolCalls {
  import opened StreamAccumulator
  import opened Wrappers

  /** `PendingToolCallAccumulator`. */
  class PendingToolCallAccumulator {
    const limits: Limits
    var pending: seq<Call>
    var completed: seq<Call>

    constructor (limits: Limits)
      ensures this.limits == limits && View() == Acc([], [])
    {
      this.limits := limits;
      pending, completed := [], [];
    }

    function View(): Acc
      reads this
    {
      Acc(pending, completed)
    }

    /** False where the source raises. */
    method StartCall(key: Key, id: string) returns (ok: bool)
      modifies this`pending
      ensures ok == Start(limits, old(View()), key, id).Some?
      ensures View() == if ok then Start(limits, old(View()), key, id).value else old(View())
    {
      var i := Find(pending, key);
      if i < |pending| {
        if id != "" && pending[i].id == "" {
          pending := pending[i := pending[i].(id := id)];
        }
        return true;
      }
      if |pending| >= limits.maxCalls {
        return false;
      }
      pending := pending + [Call(key, id, "", "", false)];
      ok := true;
    }

    /** The name of a call that has been started. */
    method FeedName(key: Key, fragment: string)
      requires Find(pending, key) < |pending|
      modifies this`pending
      ensures StreamAccumulator.FeedName(limits, old(View()), key, fragment) == Fed(View())
    {
      var i := Find(pending, key);
      pending := pending[i := pending[i].(name := pending[i].name + fragment)];
    }

    /** The arguments of a call that has been started; false where the source raises. */
    method FeedArguments(key: Key, fragment: string) returns (ok: bool)
      requires Find(pending, key) < |pending|
      modifies this`pending
      ensures StreamAccumulator.FeedArguments(limits, old(View()), key, fragment) == if ok then Fed(View()) else TooLarge
      ensures !ok ==> View() == old(View())
    {
      var i := Find(pending, key);
      if Bytes(pending[i].arguments) + Bytes(fragment) > limits.maxBytes {
        return false;
      }
      pending := pending[i := pending[i].(arguments := pending[i].arguments + fragment)];
      ok := true;
    }

    method CompleteCall(key: Key)
      modifies this
      ensures View() == Complete(old(View()), key, true)
    {
      var i := Find(pending, key);
      if i < |pending| {
        completed := completed + [pending[i].(completed := true)];
        pending := Without(pending, i);
      }
    }

    method CompleteAllPending()
      modifies this
      ensures View() == CompleteAll(old(View()), true)
    {
      while pending != []
        invariant CompleteAll(View(), true) == CompleteAll(old(View()), true)
        decreases |pending|
      {
        CompleteCall(pending[LeastIndex(pending, |pending|)].key);
      }
    }

    method DrainCompleted() returns (calls: seq<Call>)
      modifies this`completed
      ensures calls == old(completed) && View() == Acc(old(pending), [])
    {
      calls := completed;
      completed := [];
    }
  }
}
