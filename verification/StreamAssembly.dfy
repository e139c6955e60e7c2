/** What a stream makes of what it receives, read off the received items themselves: the
    text, the usage, the stop reason, every tool call put together from its fragments, and
    the first thing, if any, that ends the stream early. */
module StreamAssembly {
  import opened StreamAccumulator
  import opened StreamEngine
  import opened StreamTurns
  import opened Wrappers

  /** One thing received: a decoded event, the end of a frame, a frame that does not parse,
      or an exception. */
  datatype Item = Got(event: Decoded) | FrameEnd | Garbled | Dropped

  function ItemsOf(es: seq<Decoded>): (r: seq<Item>)
    ensures |r| == |es| && forall i :: 0 <= i < |es| ==> r[i] == Got(es[i])
  {
    seq(|es|, i requires 0 <= i < |es| => Got(es[i]))
  }

  /** What the frames from the i-th on bring, up to the one that completes the stream. */
  function Received(fs: seq<Frame>, i: nat): seq<Item>
    requires i <= |fs|
    decreases |fs| - i
  {
    if i == |fs| then []
    else match fs[i]
      case Frame(events, last) => ItemsOf(events) + [FrameEnd] + (if last then [] else Received(fs, i + 1))
      case Malformed => [Garbled] + Received(fs, i + 1)
      case Broken => [Dropped]
  }

  // ------------------------------------------- what the first `n` items amount to

  /** All the text. */
  function Deltas(items: seq<Item>, n: nat): string
    requires n <= |items|
  {
    if n == 0 then ""
    else match items[n - 1]
      case Got(TextDelta(text)) => Deltas(items, n - 1) + text
      case _ => Deltas(items, n - 1)
  }

  /** The usage reported last, by itself or with the completion. */
  function LastUsage(items: seq<Item>, n: nat): Option<Usage>
    requires n <= |items|
  {
    if n == 0 then None
    else match items[n - 1]
      case Got(UsageSeen(usage)) => Some(usage)
      case Got(Complete(_, Some(usage))) => Some(usage)
      case _ => LastUsage(items, n - 1)
  }

  /** The stop reason of the last completion. */
  function LastStop(items: seq<Item>, n: nat): Option<Stop>
    requires n <= |items|
  {
    if n == 0 then None
    else match items[n - 1]
      case Got(Complete(stop, _)) => stop
      case _ => LastStop(items, n - 1)
  }

  function Garbles(items: seq<Item>, n: nat): nat
    requires n <= |items|
  {
    if n == 0 then 0 else Garbles(items, n - 1) + (if items[n - 1].Garbled? then 1 else 0)
  }

  /** A backend error among them. */
  predicate Failing(items: seq<Item>, n: nat)
    requires n <= |items|
  {
    exists i :: 0 <= i < n && items[i] == Got(StreamError)
  }

  /** The item finishes the call of this key. */
  predicate Finishes(item: Item, key: Key) { item == Got(CallComplete(key)) || item == Got(BatchComplete) }

  predicate FragmentOf(item: Item, key: Key) { item.Got? && item.event.Fragment? && item.event.key == key }

  /** The call that is open under this key: its fragments since the key was last finished,
      put together. */
  function Open(items: seq<Item>, n: nat, key: Key): (c: Option<Call>)
    requires n <= |items|
    ensures c.Some? ==> c.value.key == key && !c.value.completed
  {
    if n == 0 || Finishes(items[n - 1], key) then None
    else if FragmentOf(items[n - 1], key) then
      var (e, before) := (items[n - 1].event, Open(items, n - 1, key));
      var c := if before.Some? then before.value else Call(key, "", "", "", false);
      Some(Call(key, if c.id == "" then e.id else c.id, c.name + e.name, c.arguments + e.arguments, false))
    else Open(items, n - 1, key)
  }

  /** The keys under which a call is open. */
  function OpenKeys(items: seq<Item>, n: nat): set<Key>
    requires n <= |items|
  {
    if n == 0 then {}
    else match items[n - 1]
      case Got(Fragment(key, _, _, _)) => OpenKeys(items, n - 1) + {key}
      case Got(CallComplete(key)) => OpenKeys(items, n - 1) - {key}
      case Got(BatchComplete) => {}
      case _ => OpenKeys(items, n - 1)
  }

  /** How a stream ends before its last frame: an exception, or an error of its own. */
  datatype Early = Raise | Fail(code: Code)

  /** The n-th item ends the stream, the ones before it being fine. */
  function Offence(env: Env, items: seq<Item>, n: nat): Option<Early>
    requires n < |items|
  {
    match items[n]
    case Dropped => Some(Raise)
    case Garbled => if OpenKeys(items, n) != {} || Garbles(items, n) >= env.maxMalformed then Some(Fail(MalformedFrame)) else None
    case FrameEnd => if Failing(items, n) then Some(Fail(BackendError)) else None
    case Got(Fragment(key, _, _, arguments)) =>
      if key !in OpenKeys(items, n) && |OpenKeys(items, n)| >= env.limits.maxCalls then Some(Raise)
      else if arguments != "" && Bytes(Open(items, n + 1, key).value.arguments) > env.limits.maxBytes then Some(Fail(CallLimit))
      else None
    case _ => None
  }

  /** The first of some keys. */
  ghost predicate Least(keys: set<Key>, k: Key) {
    k in keys && forall j :: j in keys && j != k ==> Before(k, j)
  }

  lemma {:induction false} LeastExists(keys: set<Key>)
    requires keys != {}
    ensures exists k :: Least(keys, k)
  {
    var k :| k in keys;
    if keys == {k} {
      assert Least(keys, k);
    } else {
      LeastExists(keys - {k});
      var l :| Least(keys - {k}, l);
      var m := if Before(k, l) then k else l;
      forall j | j in keys && j != m ensures Before(m, j) {
        assert j != k ==> j in keys - {k};
      }
      assert Least(keys, m);
    }
  }

  ghost function LeastOf(keys: set<Key>): (k: Key)
    requires keys != {}
    ensures Least(keys, k)
  {
    LeastExists(keys);
    var k :| Least(keys, k);
    k
  }

  /** The calls open under these keys, finished in the order of the keys. */
  ghost function InKeyOrder(items: seq<Item>, n: nat, keys: set<Key>): seq<Call>
    requires n <= |items|
  {
    if keys == {} then []
    else
      var (k, c) := (LeastOf(keys), Open(items, n, LeastOf(keys)));
      (if c.Some? then [c.value.(completed := true)] else []) + InKeyOrder(items, n, keys - {k})
  }

  /** The calls finished by the first `n` items, in the order they were. */
  ghost function Finished(items: seq<Item>, n: nat): seq<Call>
    requires n <= |items|
  {
    if n == 0 then []
    else match items[n - 1]
      case Got(CallComplete(key)) =>
        var c := Open(items, n - 1, key);
        Finished(items, n - 1) + if c.Some? then [c.value.(completed := true)] else []
      case Got(BatchComplete) => Finished(items, n - 1) + InKeyOrder(items, n - 1, OpenKeys(items, n - 1))
      case _ => Finished(items, n - 1)
  }

  // --------------------------------------------------- one item after another

  function Step(env: Env, s: State, item: Item): State {
    if !s.out.status.Running? then s
    else match item
      case Got(e) => HandleEvent(env, s, e)
      case FrameEnd => if s.turn.failed then s.(out := Abort(s.out, BackendError, None)) else s
      case Garbled => HandleFrame(env, s, Malformed)
      case Dropped => HandleFrame(env, s, Broken)
  }

  /** After the first `n` items. */
  function After(env: Env, s: State, items: seq<Item>, n: nat): State
    requires n <= |items|
  {
    if n == 0 then s else Step(env, After(env, s, items, n - 1), items[n - 1])
  }

  lemma {:induction false} AfterBoth(env: Env, s: State, a: seq<Item>, b: seq<Item>, n: nat)
    requires n <= |b|
    ensures After(env, s, a + b, |a| + n) == After(env, After(env, s, a, |a|), b, n)
  {
    if n == 0 {
      AfterAgrees(env, s, a + b, a, |a|);
    } else {
      AfterBoth(env, s, a, b, n - 1);
      assert (a + b)[|a| + (n - 1)] == b[n - 1];
    }
  }

  lemma {:induction false} AfterAgrees(env: Env, s: State, a: seq<Item>, b: seq<Item>, n: nat)
    requires n <= |a| && n <= |b| && forall i :: 0 <= i < n ==> a[i] == b[i]
    ensures After(env, s, a, n) == After(env, s, b, n)
  {
    if n > 0 {
      AfterAgrees(env, s, a, b, n - 1);
    }
  }

  lemma {:induction false} EndedStays(env: Env, s: State, items: seq<Item>, n: nat)
    requires n <= |items| && !s.out.status.Running?
    ensures After(env, s, items, n) == s
  {
    if n > 0 {
      EndedStays(env, s, items, n - 1);
    }
  }

  lemma AfterFirst(env: Env, s: State, first: Item, rest: seq<Item>)
    ensures After(env, s, [first] + rest, |rest| + 1) == After(env, Step(env, s, first), rest, |rest|)
  {
    AfterBoth(env, s, [first], rest, |rest|);
    assert After(env, s, [first], 0) == s && After(env, s, [first], 1) == Step(env, s, first);
  }

  lemma {:induction false} EventsAreItems(env: Env, s: State, es: seq<Decoded>, i: nat)
    requires i <= |es|
    ensures HandleEvents(env, s, es, i) == After(env, s, ItemsOf(es[i..]), |es| - i)
    decreases |es| - i
  {
    if !s.out.status.Running? {
      EndedStays(env, s, ItemsOf(es[i..]), |es| - i);
    } else if i < |es| {
      var rest := ItemsOf(es[i + 1..]);
      assert ItemsOf(es[i..]) == [Got(es[i])] + rest;
      EventsAreItems(env, HandleEvent(env, s, es[i]), es, i + 1);
      AfterFirst(env, s, Got(es[i]), rest);
      assert Step(env, s, Got(es[i])) == HandleEvent(env, s, es[i]);
    }
  }

  /** The frame loop is the items, one after another. */
  lemma {:induction false} FramesAreItems(env: Env, s: State, fs: seq<Frame>, i: nat)
    requires i <= |fs|
    ensures HandleFrames(env, s, fs, i) == After(env, s, Received(fs, i), |Received(fs, i)|)
    decreases |fs| - i
  {
    if !s.out.status.Running? {
      EndedStays(env, s, Received(fs, i), |Received(fs, i)|);
    } else if i < |fs| {
      match fs[i] {
        case Broken => AfterFirst(env, s, Dropped, []);
        case Malformed =>
          FramesAreItems(env, HandleFrame(env, s, Malformed), fs, i + 1);
          AfterFirst(env, s, Garbled, Received(fs, i + 1));
        case Frame(events, last) =>
          var rest := if last then [] else Received(fs, i + 1);
          FrameIsItems(env, s, fs[i]);
          AfterBoth(env, s, ItemsOf(events) + [FrameEnd], rest, |rest|);
          if !last {
            FramesAreItems(env, HandleFrame(env, s, fs[i]), fs, i + 1);
          }
      }
    }
  }

  lemma FrameIsItems(env: Env, s: State, f: Frame)
    requires f.Frame? && s.out.status.Running?
    ensures HandleFrame(env, s, f) == After(env, s, ItemsOf(f.events) + [FrameEnd], |f.events| + 1)
  {
    var es := f.events;
    EventsAreItems(env, s, es, 0);
    assert es[0..] == es;
    AfterBoth(env, s, ItemsOf(es), [FrameEnd], 1);
    assert After(env, HandleEvents(env, s, es, 0), [FrameEnd], 0) == HandleEvents(env, s, es, 0);
  }

  // ------------------------------------------------- the accumulator, read off

  function KeysOf(calls: seq<Call>): (keys: set<Key>)
    ensures forall i :: 0 <= i < |calls| ==> calls[i].key in keys
  {
    set i | 0 <= i < |calls| :: calls[i].key
  }

  lemma {:induction false} AsManyKeys(calls: seq<Call>)
    requires Distinct(calls)
    ensures |KeysOf(calls)| == |calls|
  {
    if calls != [] {
      var (before, last) := (calls[..|calls| - 1], calls[|calls| - 1]);
      AsManyKeys(before);
      assert KeysOf(calls) == KeysOf(before) + {last.key} by {
        assert forall i :: 0 <= i < |before| ==> before[i] == calls[i];
        forall k | k in KeysOf(calls) ensures k in KeysOf(before) + {last.key} {
          var i :| 0 <= i < |calls| && calls[i].key == k;
          assert i < |before| ==> before[i].key == k;
        }
        assert calls[|before|] == last;
      }
      assert last.key !in KeysOf(before);
    }
  }

  /** The open calls are those the items say are open. */
  ghost predicate PendingIs(pending: seq<Call>, items: seq<Item>, n: nat)
    requires n <= |items|
  {
    && Distinct(pending) && KeysOf(pending) == OpenKeys(items, n)
    && forall i :: 0 <= i < |pending| ==> Open(items, n, pending[i].key) == Some(pending[i])
  }

  /** And the finished ones those they say are finished, in their order. */
  ghost predicate Assembled(a: Acc, items: seq<Item>, n: nat)
    requires n <= |items|
  {
    PendingIs(a.pending, items, n) && a.completed == Finished(items, n)
  }

  lemma KeyIsFound(calls: seq<Call>, key: Key)
    ensures key in KeysOf(calls) <==> Find(calls, key) < |calls|
  {
    if Find(calls, key) < |calls| {
      assert calls[Find(calls, key)].key in KeysOf(calls);
    }
  }

  lemma KeysWithout(calls: seq<Call>, i: nat)
    requires i < |calls| && Distinct(calls)
    ensures KeysOf(Without(calls, i)) == KeysOf(calls) - {calls[i].key}
  {
    var rest := Without(calls, i);
    forall k | k in KeysOf(calls) - {calls[i].key} ensures k in KeysOf(rest) {
      var j :| 0 <= j < |calls| && calls[j].key == k;
      assert rest[if j < i then j else j - 1] == calls[j];
    }
  }

  lemma LeastIsLeast(calls: seq<Call>)
    requires calls != [] && Distinct(calls)
    ensures calls[LeastIndex(calls, |calls|)].key == LeastOf(KeysOf(calls))
  {
    var i := LeastIndex(calls, |calls|);
    assert calls[i].key in KeysOf(calls);
    var k := LeastOf(KeysOf(calls));
    var j :| 0 <= j < |calls| && calls[j].key == k;
  }

  /** Finishing everything that is open. */
  lemma {:induction false} AllFinished(a: Acc, items: seq<Item>, n: nat)
    requires n <= |items| && Distinct(a.pending)
    requires forall i :: 0 <= i < |a.pending| ==> Open(items, n, a.pending[i].key) == Some(a.pending[i])
    ensures CompleteAll(a, true).completed == a.completed + InKeyOrder(items, n, KeysOf(a.pending))
    decreases |a.pending|
  {
    if a.pending == [] {
      assert KeysOf(a.pending) == {};
    } else {
      var i := LeastIndex(a.pending, |a.pending|);
      var (c, keys) := (a.pending[i], KeysOf(a.pending));
      var b := StreamAccumulator.Complete(a, c.key, true);
      LeastIsLeast(a.pending);
      DistinctWithout(a.pending, i);
      KeysWithout(a.pending, i);
      assert b == Acc(Without(a.pending, i), a.completed + [c.(completed := true)]);
      AllFinished(b, items, n);
      FirstInOrder(items, n, keys, c);
      Reassociated(a.completed, [c.(completed := true)], InKeyOrder(items, n, keys - {c.key}));
    }
  }

  lemma FirstInOrder(items: seq<Item>, n: nat, keys: set<Key>, c: Call)
    requires n <= |items| && keys != {} && LeastOf(keys) == c.key && Open(items, n, c.key) == Some(c)
    ensures InKeyOrder(items, n, keys) == [c.(completed := true)] + InKeyOrder(items, n, keys - {c.key})
  {
  }

  lemma Reassociated<T>(a: seq<T>, b: seq<T>, c: seq<T>)
    ensures (a + b) + c == a + (b + c)
  {
  }

  lemma SameOpen(items: seq<Item>, n: nat, key: Key)
    requires n < |items| && !FragmentOf(items[n], key) && !Finishes(items[n], key)
    ensures Open(items, n + 1, key) == Open(items, n, key)
  {
  }

  lemma SizeOfPending(pending: seq<Call>, items: seq<Item>, n: nat)
    requires n <= |items| && PendingIs(pending, items, n)
    ensures |OpenKeys(items, n)| == |pending|
  {
    AsManyKeys(pending);
  }

  /** The open calls after call `i` has grown. */
  lemma GrownIs(pending: seq<Call>, items: seq<Item>, n: nat, i: nat, c: Call)
    requires n < |items| && PendingIs(pending, items, n) && i < |pending|
    requires FragmentOf(items[n], pending[i].key) && Open(items, n + 1, pending[i].key) == Some(c)
    ensures PendingIs(pending[i := c], items, n + 1)
  {
    var grown := pending[i := c];
    forall k | k in KeysOf(pending) ensures k in KeysOf(grown) {
      var j :| 0 <= j < |pending| && pending[j].key == k;
      assert grown[j].key == k;
    }
    assert pending[i].key in KeysOf(pending);
    assert KeysOf(grown) == KeysOf(pending);
    forall j | 0 <= j < |grown| && j != i ensures Open(items, n + 1, grown[j].key) == Some(grown[j]) {
      SameOpen(items, n, grown[j].key);
    }
  }

  /** And after a call has been started. */
  lemma StartedIs(pending: seq<Call>, items: seq<Item>, n: nat, c: Call)
    requires n < |items| && PendingIs(pending, items, n) && c.key !in OpenKeys(items, n)
    requires FragmentOf(items[n], c.key) && Open(items, n + 1, c.key) == Some(c)
    ensures PendingIs(pending + [c], items, n + 1)
  {
    var more := pending + [c];
    forall k | k in KeysOf(pending) + {c.key} ensures k in KeysOf(more) {
      if k != c.key {
        var j :| 0 <= j < |pending| && pending[j].key == k;
        assert more[j].key == k;
      } else {
        assert more[|pending|].key == k;
      }
    }
    assert KeysOf(more) == KeysOf(pending) + {c.key};
    forall j | 0 <= j < |pending| ensures more[j].key != c.key && Open(items, n + 1, more[j].key) == Some(more[j]) {
      assert pending[j].key in KeysOf(pending);
      SameOpen(items, n, more[j].key);
    }
  }

  lemma {:induction false} NotOpenIsNone(items: seq<Item>, n: nat, key: Key)
    requires n <= |items|
    ensures key in OpenKeys(items, n) <==> Open(items, n, key).Some?
  {
    if n > 0 {
      NotOpenIsNone(items, n - 1, key);
    }
  }

  /** The fragment, fed to the accumulator. */
  function FedBy(env: Env, a: Acc, item: Item): Fed
    requires item.Got? && item.event.Fragment?
  {
    Feed(env.limits, a, item.event.key, item.event.id, item.event.name, item.event.arguments)
  }

  predicate TooBig(env: Env, items: seq<Item>, n: nat)
    requires n < |items| && items[n].Got? && items[n].event.Fragment?
  {
    items[n].event.arguments != "" && Bytes(Open(items, n + 1, items[n].event.key).value.arguments) > env.limits.maxBytes
  }

  lemma FragmentOfOpen(env: Env, a: Acc, items: seq<Item>, n: nat)
    requires n < |items| && items[n].Got? && items[n].event.Fragment? && Assembled(a, items, n)
    requires items[n].event.key in OpenKeys(items, n)
    ensures var fed := FedBy(env, a, items[n]);
            if TooBig(env, items, n) then fed == TooLarge else fed.Fed? && Assembled(fed.acc, items, n + 1)
  {
    var e := items[n].event;
    var i := Find(a.pending, e.key);
    FeedIsOneStep(env.limits, a, e.key, e.id, e.name, e.arguments);
    KeyIsFound(a.pending, e.key);
    var grown := Grown(a.pending[i], e.id, e.name, e.arguments);
    assert Open(items, n, a.pending[i].key) == Some(a.pending[i]);
    assert Open(items, n + 1, e.key) == Some(grown);
    GrownIs(a.pending, items, n, i, grown);
  }

  /** A call that starts with this fragment. */
  function Started(key: Key, id: string, name: string, arguments: string): Call {
    Grown(Call(key, "", "", "", false), id, name, arguments)
  }

  lemma NewIsFed(limits: Limits, a: Acc, key: Key, id: string, name: string, arguments: string)
    requires Find(a.pending, key) == |a.pending|
    ensures var (fed, c) := (Feed(limits, a, key, id, name, arguments), Started(key, id, name, arguments));
            fed == if |a.pending| >= limits.maxCalls then TooManyCalls
                   else if arguments != "" && Bytes(c.arguments) > limits.maxBytes then TooLarge
                   else Fed(a.(pending := a.pending + [c]))
  {
    FeedIsOneStep(limits, a, key, id, name, arguments);
    var (blank, c) := (Call(key, "", "", "", false), Started(key, id, name, arguments));
    assert (a.pending + [blank])[|a.pending| := c] == a.pending + [c];
  }

  lemma FragmentOfNew(env: Env, a: Acc, items: seq<Item>, n: nat)
    requires n < |items| && items[n].Got? && items[n].event.Fragment? && Assembled(a, items, n)
    requires items[n].event.key !in OpenKeys(items, n)
    ensures var fed := FedBy(env, a, items[n]);
            if |OpenKeys(items, n)| >= env.limits.maxCalls then fed == TooManyCalls
            else if TooBig(env, items, n) then fed == TooLarge
            else fed.Fed? && Assembled(fed.acc, items, n + 1)
  {
    var e := items[n].event;
    KeyIsFound(a.pending, e.key);
    SizeOfPending(a.pending, items, n);
    NotOpenIsNone(items, n, e.key);
    var c := Started(e.key, e.id, e.name, e.arguments);
    assert Open(items, n + 1, e.key) == Some(c);
    NewIsFed(env.limits, a, e.key, e.id, e.name, e.arguments);
    StartedIs(a.pending, items, n, c);
  }

  /** A fragment fails, or grows its call, as the items say. */
  lemma FragmentIs(env: Env, a: Acc, items: seq<Item>, n: nat)
    requires n < |items| && items[n].Got? && items[n].event.Fragment? && Assembled(a, items, n)
    ensures var fed := FedBy(env, a, items[n]);
            match Offence(env, items, n)
            case None => fed.Fed? && Assembled(fed.acc, items, n + 1)
            case Some(Raise) => fed.TooManyCalls?
            case Some(Fail(code)) => fed.TooLarge? && code == CallLimit
  {
    if items[n].event.key in OpenKeys(items, n) {
      FragmentOfOpen(env, a, items, n);
    } else {
      FragmentOfNew(env, a, items, n);
    }
  }

  lemma CompleteIs(a: Acc, items: seq<Item>, n: nat)
    requires n < |items| && items[n].Got? && items[n].event.CallComplete? && Assembled(a, items, n)
    ensures Assembled(StreamAccumulator.Complete(a, items[n].event.key, true), items, n + 1)
  {
    var key := items[n].event.key;
    var (b, i) := (StreamAccumulator.Complete(a, key, true), Find(a.pending, key));
    KeyIsFound(a.pending, key);
    NotOpenIsNone(items, n, key);
    if i < |a.pending| {
      KeysWithout(a.pending, i);
      DistinctWithout(a.pending, i);
    }
    forall j | 0 <= j < |b.pending| ensures Open(items, n + 1, b.pending[j].key) == Some(b.pending[j]) {
      assert b.pending[j].key in KeysOf(b.pending);
      SameOpen(items, n, b.pending[j].key);
    }
  }

  lemma BatchIs(a: Acc, items: seq<Item>, n: nat)
    requires n < |items| && items[n] == Got(BatchComplete) && Assembled(a, items, n)
    ensures Assembled(CompleteAll(a, true), items, n + 1)
  {
    AllFinished(a, items, n);
    assert KeysOf([]) == {};
  }

  lemma OtherIs(a: Acc, items: seq<Item>, n: nat)
    requires n < |items| && Assembled(a, items, n)
    requires items[n].Got? ==> !items[n].event.Fragment? && !items[n].event.CallComplete? && !items[n].event.BatchComplete?
    ensures Assembled(a, items, n + 1)
  {
    forall j | 0 <= j < |a.pending| ensures Open(items, n + 1, a.pending[j].key) == Some(a.pending[j]) {
      SameOpen(items, n, a.pending[j].key);
    }
  }

  // ---------------------------------------------------------- the whole loop

  /** The text among the first `n` events of a log. */
  function Spoken(log: seq<Emission>, n: nat): string
    requires n <= |log|
  {
    if n == 0 then ""
    else if log[n - 1].event.Text? then Spoken(log, n - 1) + log[n - 1].event.partial
    else Spoken(log, n - 1)
  }

  lemma {:induction false} SpokenAgrees(a: seq<Emission>, b: seq<Emission>, n: nat)
    requires n <= |a| && n <= |b| && forall i :: 0 <= i < n ==> a[i] == b[i]
    ensures Spoken(a, n) == Spoken(b, n)
  {
    if n > 0 {
      SpokenAgrees(a, b, n - 1);
    }
  }

  lemma SpokenThen(log: seq<Emission>, x: Emission)
    ensures Spoken(log + [x], |log| + 1) == Spoken(log, |log|) + if x.event.Text? then x.event.partial else ""
  {
    SpokenAgrees(log + [x], log, |log|);
    assert Spoken(log, |log|) + "" == Spoken(log, |log|);
  }

  /** Nothing but text has been emitted, all the text there was unless it is held back, with
      the record active throughout. */
  ghost predicate Says(env: Env, items: seq<Item>, n: nat, out: Out)
    requires n <= |items|
  {
    && Spoken(out.log, |out.log|) == (if env.buffered then "" else Deltas(items, n))
    && (forall i :: 0 <= i < |out.log| ==> out.log[i].event.Text? && out.log[i].record.Active?)
    && out.record.Active? && out.fate == Opened(env).fate
  }

  /** The state of the loop is what the first `n` items amount to. */
  ghost predicate Reads(env: Env, items: seq<Item>, n: nat, s: State)
    requires n <= |items|
  {
    && s.out.status.Running? && Says(env, items, n, s.out)
    && s.turn.text == (if env.buffered then Deltas(items, n) else "")
    && s.turn.usage == LastUsage(items, n) && s.turn.stop == LastStop(items, n)
    && s.turn.malformed == Garbles(items, n) && (s.turn.failed <==> Failing(items, n))
    && Assembled(s.turn.acc, items, n)
  }

  /** The log of a stream that ends early: the text so far, and then the error and the stop
      of a failure, with the record final by then, or nothing more. */
  ghost predicate EndsEarly(env: Env, items: seq<Item>, n: nat, end: Early, out: Out)
    requires n <= |items|
  {
    match end
    case Raise => out.status.Raised? && Says(env, items, n, out)
    case Fail(code) =>
      && out.status.Ended? && out.record.Failed? && out.fate == Opened(env).fate && |out.log| >= 2
      && out.log[|out.log| - 2..] == [Emission(Error(code), Failed), Emission(MessageStop(None), Failed)]
      && Says(env, items, n, Out(out.log[..|out.log| - 2], Active, out.fate, Running))
  }

  lemma FailingNext(items: seq<Item>, n: nat)
    requires n < |items|
    ensures Failing(items, n + 1) <==> Failing(items, n) || items[n] == Got(StreamError)
  {
  }

  lemma TextIs(env: Env, items: seq<Item>, n: nat, s: State)
    requires n < |items| && Reads(env, items, n, s) && items[n].Got? && items[n].event.TextDelta?
    ensures Reads(env, items, n + 1, Step(env, s, items[n]))
  {
    FailingNext(items, n);
    OtherIs(s.turn.acc, items, n);
    if !env.buffered {
      TextIsSaid(env, items, n, s.out);
    }
  }

  lemma TextIsSaid(env: Env, items: seq<Item>, n: nat, out: Out)
    requires n < |items| && Says(env, items, n, out) && !env.buffered && items[n].Got? && items[n].event.TextDelta?
    ensures Says(env, items, n + 1, Say(out, Text(items[n].event.text)))
  {
    SpokenThen(out.log, Emission(Text(items[n].event.text), out.record));
  }

  /** An item about a call changes the accumulator and nothing else. */
  lemma CallIs(env: Env, items: seq<Item>, n: nat, s: State, acc: Acc)
    requires n < |items| && Reads(env, items, n, s) && Assembled(acc, items, n + 1)
    requires items[n].Got? && (items[n].event.Fragment? || items[n].event.CallComplete? || items[n].event.BatchComplete?)
    ensures Reads(env, items, n + 1, s.(turn := s.turn.(acc := acc)))
  {
    FailingNext(items, n);
  }

  /** An item about the stream as a whole does not touch it. */
  lemma OtherReads(env: Env, items: seq<Item>, n: nat, s: State)
    requires n < |items| && Reads(env, items, n, s) && Offence(env, items, n).None?
    requires items[n].Got? ==> items[n].event.UsageSeen? || items[n].event.Complete? || items[n].event.StreamError?
    ensures Reads(env, items, n + 1, Step(env, s, items[n]))
  {
    FailingNext(items, n);
    SizeOfPending(s.turn.acc.pending, items, n);
    OtherIs(s.turn.acc, items, n);
  }

  lemma StepReads(env: Env, items: seq<Item>, n: nat, s: State)
    requires n < |items| && Reads(env, items, n, s) && Offence(env, items, n).None?
    ensures Reads(env, items, n + 1, Step(env, s, items[n]))
  {
    match items[n] {
      case Got(TextDelta(_)) => TextIs(env, items, n, s);
      case Got(Fragment(_, _, _, _)) =>
        FragmentIs(env, s.turn.acc, items, n);
        CallIs(env, items, n, s, FedBy(env, s.turn.acc, items[n]).acc);
      case Got(CallComplete(key)) =>
        CompleteIs(s.turn.acc, items, n);
        CallIs(env, items, n, s, StreamAccumulator.Complete(s.turn.acc, key, true));
      case Got(BatchComplete) =>
        BatchIs(s.turn.acc, items, n);
        CallIs(env, items, n, s, CompleteAll(s.turn.acc, true));
      case _ => OtherReads(env, items, n, s);
    }
  }

  lemma AbortEndsEarly(env: Env, items: seq<Item>, n: nat, out: Out, code: Code)
    requires n <= |items| && Says(env, items, n, out)
    ensures EndsEarly(env, items, n, Fail(code), Abort(out, code, None))
  {
    var log := Abort(out, code, None).log;
    assert log == out.log + [Emission(Error(code), Failed), Emission(MessageStop(None), Failed)];
    assert log[..|out.log|] == out.log;
  }

  lemma OffenceEnds(env: Env, items: seq<Item>, n: nat, s: State)
    requires n < |items| && Reads(env, items, n, s) && Offence(env, items, n).Some?
    ensures EndsEarly(env, items, n, Offence(env, items, n).value, Step(env, s, items[n]).out)
  {
    SizeOfPending(s.turn.acc.pending, items, n);
    match items[n] {
      case Dropped =>
      case Garbled => AbortEndsEarly(env, items, n, s.out, MalformedFrame);
      case FrameEnd => AbortEndsEarly(env, items, n, s.out, BackendError);
      case Got(e) =>
        FragmentIs(env, s.turn.acc, items, n);
        AbortEndsEarly(env, items, n, s.out, CallLimit);
    }
  }

  /** None of the first `n` items ends the stream. */
  ghost predicate Fine(env: Env, items: seq<Item>, n: nat)
    requires n <= |items|
  {
    forall j :: 0 <= j < n ==> Offence(env, items, j).None?
  }

  lemma {:induction false} FineIsRead(env: Env, items: seq<Item>, n: nat)
    requires n <= |items| && env.opening.Streams? && Fine(env, items, n)
    ensures Reads(env, items, n, After(env, State(NO_TURN, Opened(env)), items, n))
  {
    if n == 0 {
      StartReads(env, items);
    } else {
      FineIsRead(env, items, n - 1);
      var start := State(NO_TURN, Opened(env));
      NextReads(env, items, n - 1, n, After(env, start, items, n - 1), After(env, start, items, n));
    }
  }

  lemma StartReads(env: Env, items: seq<Item>)
    requires env.opening.Streams?
    ensures Reads(env, items, 0, After(env, State(NO_TURN, Opened(env)), items, 0))
  {
    assert KeysOf([]) == {};
  }

  lemma NextReads(env: Env, items: seq<Item>, n: nat, m: nat, s: State, t: State)
    requires n < |items| && m == n + 1 && t == Step(env, s, items[n])
    requires Reads(env, items, n, s) && Offence(env, items, n).None?
    ensures Reads(env, items, m, t)
  {
    StepReads(env, items, n, s);
  }

  lemma {:induction false} EndedFrom(env: Env, s: State, items: seq<Item>, m: nat, n: nat)
    requires m <= n <= |items| && !After(env, s, items, m).out.status.Running?
    ensures After(env, s, items, n) == After(env, s, items, m)
  {
    if m < n {
      EndedFrom(env, s, items, m, n - 1);
    }
  }

  /** The loop on a backend that streams. It gets to the end of the turn if and only if no
      item ends it, and then the turn is what the items amount to: text, usage, stop reason
      and calls. Otherwise the first item that ends it decides how. */
  lemma HeardIsRead(env: Env, fs: seq<Frame>)
    requires env.opening.Streams?
    ensures var items := Received(fs, 0);
            && (Heard(env, fs) <==> Fine(env, items, |items|))
            && (Heard(env, fs) ==> Reads(env, items, |items|, Listened(env, fs)))
            && forall n :: 0 <= n < |items| && Fine(env, items, n) && Offence(env, items, n).Some? ==>
                 EndsEarly(env, items, n, Offence(env, items, n).value, Listened(env, fs).out)
  {
    var items := Received(fs, 0);
    forall n | 0 <= n < |items| && Fine(env, items, n) && Offence(env, items, n).Some?
      ensures EndsEarly(env, items, n, Offence(env, items, n).value, Listened(env, fs).out)
    {
      OffenceDecides(env, fs, n);
    }
    if Fine(env, items, |items|) {
      FramesAreItems(env, State(NO_TURN, Opened(env)), fs, 0);
      FineIsRead(env, items, |items|);
    } else {
      var n := FirstOffence(env, items, |items|);
      OffenceDecides(env, fs, n);
    }
  }

  lemma OffenceDecides(env: Env, fs: seq<Frame>, n: nat)
    requires env.opening.Streams? && n < |Received(fs, 0)|
    requires Fine(env, Received(fs, 0), n) && Offence(env, Received(fs, 0), n).Some?
    ensures EndsEarly(env, Received(fs, 0), n, Offence(env, Received(fs, 0), n).value, Listened(env, fs).out)
    ensures !Heard(env, fs)
  {
    var (items, start) := (Received(fs, 0), State(NO_TURN, Opened(env)));
    FramesAreItems(env, start, fs, 0);
    FineIsRead(env, items, n);
    OffenceEnds(env, items, n, After(env, start, items, n));
    EndedFrom(env, start, items, n + 1, |items|);
  }

  lemma {:induction false} FirstOffence(env: Env, items: seq<Item>, m: nat) returns (n: nat)
    requires m <= |items| && !Fine(env, items, m)
    ensures n < m && Fine(env, items, n) && Offence(env, items, n).Some?
  {
    if Fine(env, items, m - 1) {
      n := m - 1;
    } else {
      n := FirstOffence(env, items, m - 1);
    }
  }
}
